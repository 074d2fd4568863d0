/** Counting how often fragments cover the bytes of one block, and assembling a
    block from fragments. The region chunker detects misuse by counting lengths only;
    the lemmas here say exactly what that counting can and cannot tell. */
module Coverage {
  import opened Bytes

  /** `bytes` placed at offset `off` of some block. */
  datatype Frag = Frag(off: nat, bytes: Bytes) {
    function End(): nat { off + |bytes| }
    predicate Has(k: nat) { off <= k < End() }
  }

  function SumLen(fs: seq<Frag>): (n: nat) {
    if |fs| == 0 then 0 else SumLen(fs[..|fs| - 1]) + |fs[|fs| - 1].bytes|
  }

  /** How many fragments cover byte `k`. */
  function Cnt(fs: seq<Frag>, k: nat): (n: nat) {
    if |fs| == 0 then 0 else Cnt(fs[..|fs| - 1], k) + (if fs[|fs| - 1].Has(k) then 1 else 0)
  }

  /** The fragments that hold a non-zero byte: the only ones worth buffering. */
  function NonZero(fs: seq<Frag>): (r: seq<Frag>)
    ensures |r| <= |fs|
  {
    if |fs| == 0 then []
    else
      var init := NonZero(fs[..|fs| - 1]);
      if AllZero(fs[|fs| - 1].bytes) then init else init + [fs[|fs| - 1]]
  }

  ghost predicate AtMostOnce(fs: seq<Frag>, n: nat) {
    forall k | 0 <= k < n :: Cnt(fs, k) <= 1
  }

  ghost predicate Everywhere(fs: seq<Frag>, n: nat) {
    forall k | 0 <= k < n :: Cnt(fs, k) >= 1
  }

  ghost predicate ExactlyOnce(fs: seq<Frag>, n: nat) {
    forall k | 0 <= k < n :: Cnt(fs, k) == 1
  }

  ghost predicate Within(fs: seq<Frag>, n: nat) {
    forall i | 0 <= i < |fs| :: fs[i].End() <= n
  }

  ghost predicate Agrees(fs: seq<Frag>, block: Bytes) {
    forall i | 0 <= i < |fs| :: fs[i].End() <= |block| && fs[i].bytes == block[fs[i].off..fs[i].End()]
  }

  /** Writes `f` over `base`; a fragment past the end extends the block, as a write past
      the end of a file does. */
  function Patch(base: Bytes, f: Frag): (r: Bytes)
    requires f.off <= |base|
    ensures |r| == if f.End() <= |base| then |base| else f.End()
    ensures forall k | 0 <= k < |r| :: r[k] == if f.Has(k) then f.bytes[k - f.off] else base[k]
  {
    base[..f.off] + f.bytes + (if f.End() <= |base| then base[f.End()..] else [])
  }

  /** A zero block of `n` bytes with the fragments written over it in order. */
  function Assemble(n: nat, fs: seq<Frag>): (r: Bytes)
    requires Within(fs, n)
    ensures |r| == n
  {
    if |fs| == 0 then Zeros(n)
    else Patch(Assemble(n, fs[..|fs| - 1]), fs[|fs| - 1])
  }

  // ---- Double counting -------------------------------------------------------

  /** Coverage counts of bytes `0..n` added up. */
  function SumCnt(fs: seq<Frag>, n: nat): (s: nat) {
    if n == 0 then 0 else SumCnt(fs, n - 1) + Cnt(fs, n - 1)
  }

  function Overlap(f: Frag, n: nat): nat {
    if n <= f.off then 0 else if n <= f.End() then n - f.off else |f.bytes|
  }

  lemma {:induction false} SumCntSnoc(fs: seq<Frag>, n: nat)
    requires |fs| > 0
    ensures SumCnt(fs, n) == SumCnt(fs[..|fs| - 1], n) + Overlap(fs[|fs| - 1], n)
  {
    if n > 0 { SumCntSnoc(fs, n - 1); }
  }

  lemma {:induction false} SumCntEmpty(n: nat)
    ensures SumCnt([], n) == 0
  {
    if n > 0 { SumCntEmpty(n - 1); }
  }

  /** Adding up the coverage of every byte counts every fragment's length. */
  lemma {:induction false} CountIsLength(fs: seq<Frag>, n: nat)
    requires Within(fs, n)
    ensures SumCnt(fs, n) == SumLen(fs)
  {
    if |fs| == 0 {
      SumCntEmpty(n);
    } else {
      CountIsLength(fs[..|fs| - 1], n);
      SumCntSnoc(fs, n);
    }
  }

  lemma {:induction false} SumCntAtMostOnce(fs: seq<Frag>, n: nat)
    requires AtMostOnce(fs, n)
    ensures SumCnt(fs, n) <= n
    ensures SumCnt(fs, n) == n ==> ExactlyOnce(fs, n)
  {
    if n > 0 { SumCntAtMostOnce(fs, n - 1); }
  }

  lemma {:induction false} SumCntAtLeastOnce(fs: seq<Frag>, n: nat)
    requires Everywhere(fs, n)
    ensures SumCnt(fs, n) >= n
    ensures SumCnt(fs, n) == n ==> ExactlyOnce(fs, n)
  {
    if n > 0 { SumCntAtLeastOnce(fs, n - 1); }
  }

  /** Fragments that never overlap cannot be longer than their block. */
  lemma OnceFits(fs: seq<Frag>, n: nat)
    requires Within(fs, n)
    requires AtMostOnce(fs, n)
    ensures SumLen(fs) <= n
    ensures SumLen(fs) == n ==> ExactlyOnce(fs, n)
  {
    CountIsLength(fs, n);
    SumCntAtMostOnce(fs, n);
  }

  /** What a length count equal to the block length means: a byte covered twice is
      possible, but only together with a byte not covered at all. */
  lemma FullCountIff(fs: seq<Frag>, n: nat)
    requires Within(fs, n)
    requires SumLen(fs) == n
    ensures AtMostOnce(fs, n) <==> Everywhere(fs, n)
    ensures AtMostOnce(fs, n) ==> ExactlyOnce(fs, n)
  {
    CountIsLength(fs, n);
    if AtMostOnce(fs, n) { SumCntAtMostOnce(fs, n); }
    if Everywhere(fs, n) { SumCntAtLeastOnce(fs, n); }
    assert ExactlyOnce(fs, n) ==> AtMostOnce(fs, n) && Everywhere(fs, n);
  }

  // ---- Assembly --------------------------------------------------------------

  lemma {:induction false} NonZeroWithin(fs: seq<Frag>, n: nat)
    requires Within(fs, n)
    ensures Within(NonZero(fs), n)
  {
    if |fs| > 0 { NonZeroWithin(fs[..|fs| - 1], n); }
  }

  lemma {:induction false} NonZeroAgrees(fs: seq<Frag>, block: Bytes)
    requires Agrees(fs, block)
    ensures Agrees(NonZero(fs), block)
  {
    if |fs| > 0 { NonZeroAgrees(fs[..|fs| - 1], block); }
  }

  /** Every byte of an assembled block is a byte of the block the fragments came from,
      or an uncovered zero. */
  lemma {:induction false} AssembleAgrees(fs: seq<Frag>, block: Bytes, k: nat)
    requires Agrees(fs, block) && k < |block|
    ensures Within(fs, |block|)
    ensures Assemble(|block|, fs)[k] == if Cnt(fs, k) > 0 then block[k] else 0
  {
    if |fs| > 0 { AssembleAgrees(fs[..|fs| - 1], block, k); }
  }

  /** Dropping all-zero fragments only uncovers bytes that are zero anyway. */
  lemma {:induction false} NonZeroCovers(fs: seq<Frag>, block: Bytes, k: nat)
    requires Agrees(fs, block) && k < |block| && Cnt(fs, k) > 0 && block[k] != 0
    ensures Cnt(NonZero(fs), k) > 0
  {
    var init, last := fs[..|fs| - 1], fs[|fs| - 1];
    if last.Has(k) {
      assert last.bytes[k - last.off] == block[k];
    } else {
      NonZeroCovers(init, block, k);
    }
    assert NonZero(fs)[..|NonZero(fs)| - 1] == NonZero(init) || NonZero(fs) == NonZero(init);
  }

  /** A block whose every byte is covered is rebuilt from its non-zero fragments alone,
      and there are none exactly when the block is all zero. */
  lemma RebuildBlock(fs: seq<Frag>, block: Bytes)
    requires Agrees(fs, block)
    requires Everywhere(fs, |block|)
    ensures Within(NonZero(fs), |block|)
    ensures Assemble(|block|, NonZero(fs)) == block
    ensures NonZero(fs) == [] <==> AllZero(block)
  {
    NonZeroAgrees(fs, block);
    NonZeroWithin(fs, |block|);
    var body := Assemble(|block|, NonZero(fs));
    forall k | 0 <= k < |block|
      ensures body[k] == block[k]
    {
      AssembleAgrees(NonZero(fs), block, k);
      if block[k] != 0 { NonZeroCovers(fs, block, k); }
    }
    assert body == block;
    if NonZero(fs) != [] { NonZeroHasByte(fs, block); }
  }

  lemma {:induction false} NonZeroHasByte(fs: seq<Frag>, block: Bytes)
    requires Agrees(fs, block) && NonZero(fs) != []
    ensures !AllZero(block)
  {
    var last := fs[|fs| - 1];
    if AllZero(last.bytes) {
      NonZeroHasByte(fs[..|fs| - 1], block);
    } else {
      var j :| 0 <= j < |last.bytes| && last.bytes[j] != 0;
      assert block[last.off + j] != 0;
    }
  }
}
