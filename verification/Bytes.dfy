/** Byte strings, zero runs and content digests shared by the whole model. */
module Bytes {

  type byte = x: int | 0 <= x < 256

  type Bytes = seq<byte>

  /** A content digest. Its width is left open: the digest function is a parameter
      of every operation that uses one, and only the results that need
      collision-freedom assume it. */
  type Digest = seq<byte>

  predicate AllZero(s: Bytes) {
    forall i | 0 <= i < |s| :: s[i] == 0
  }

  function Zeros(n: nat): (z: Bytes)
    ensures |z| == n && AllZero(z)
  {
    seq(n, _ => 0)
  }

  ghost predicate Injective(hash: Bytes -> Digest) {
    forall a, b :: hash(a) == hash(b) ==> a == b
  }

  /** The concatenation of a list of pieces, in order. */
  function Flatten(pieces: seq<Bytes>): (r: Bytes) {
    if |pieces| == 0 then [] else pieces[0] + Flatten(pieces[1..])
  }

  lemma {:induction false} FlattenSnoc(pieces: seq<Bytes>, last: Bytes)
    ensures Flatten(pieces + [last]) == Flatten(pieces) + last
  {
    if |pieces| == 0 {
      assert pieces + [last] == [last];
      assert Flatten([last]) == last + Flatten([]);
    } else {
      FlattenSnoc(pieces[1..], last);
      assert (pieces + [last])[1..] == pieces[1..] + [last];
      assert pieces[0] + (Flatten(pieces[1..]) + last) == pieces[0] + Flatten(pieces[1..]) + last;
    }
  }
}
