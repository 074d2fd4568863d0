/** UTF-8 as the lossy decoder of the standard library reads it: every malformed unit becomes
    one replacement character. What decoding piece by piece does to a text, and exactly when
    it does nothing. */
module Utf8 {
  import opened Bytes

  const REPLACEMENT: char := 0xFFFD as char

  // ---- One unit -----------------------------------------------------------------------------------

  /** How many bytes a lead byte announces; none for a byte that cannot lead. */
  function Width(b: byte): nat {
    if b < 0x80 then 1
    else if 0xC2 <= b < 0xE0 then 2
    else if 0xE0 <= b < 0xF0 then 3
    else if 0xF0 <= b < 0xF5 then 4
    else 0
  }

  predicate Continues(b: byte) { 0x80 <= b < 0xC0 }

  /** The second byte is narrower after some lead bytes: no overlong form, no surrogate, nothing
      past the last code point. */
  predicate Second(a: byte, b: byte) {
    && Continues(b) && (a == 0xE0 ==> b >= 0xA0) && (a == 0xED ==> b < 0xA0)
    && (a == 0xF0 ==> b >= 0x90) && (a == 0xF4 ==> b < 0x90)
  }

  /** The first unit: a character, or the longest start of one that is not completed. */
  function UnitLen(s: Bytes): (n: nat)
    requires s != []
    ensures 1 <= n <= 4 && n <= |s|
  {
    var w := Width(s[0]);
    if w <= 1 || |s| < 2 || !Second(s[0], s[1]) then 1
    else if w == 2 || |s| < 3 || !Continues(s[2]) then 2
    else if w == 3 || |s| < 4 || !Continues(s[3]) then 3
    else 4
  }

  function UnitChar(s: Bytes): char
    requires s != []
  {
    if UnitLen(s) != Width(s[0]) then REPLACEMENT
    else
      match Width(s[0])
      case 1 => s[0] as char
      case 2 => Two(s[0], s[1])
      case 3 => Three(s[0], s[1], s[2])
      case _ => Four(s[0], s[1], s[2], s[3])
  }

  function Two(a: int, b: int): char
    requires 0xC2 <= a < 0xE0 && 0x80 <= b < 0xC0
  {
    ((a - 0xC0) * 64 + (b - 0x80)) as char
  }

  function Three(a: int, b: int, c: int): char
    requires 0xE0 <= a < 0xF0 && 0x80 <= b < 0xC0 && 0x80 <= c < 0xC0 && (a == 0xED ==> b < 0xA0)
  {
    ((a - 0xE0) * 4096 + (b - 0x80) * 64 + (c - 0x80)) as char
  }

  function Four(a: int, b: int, c: int, d: int): char
    requires 0xF0 <= a < 0xF5 && 0x80 <= b < 0xC0 && 0x80 <= c < 0xC0 && 0x80 <= d < 0xC0
    requires (a == 0xF0 ==> b >= 0x90) && (a == 0xF4 ==> b < 0x90)
  {
    ((a - 0xF0) * 262144 + (b - 0x80) * 4096 + (c - 0x80) * 64 + (d - 0x80)) as char
  }

  function Lossy(s: Bytes): string {
    if s == [] then [] else [UnitChar(s)] + Lossy(s[UnitLen(s)..])
  }

  lemma LossyFirst(s: Bytes)
    requires s != []
    ensures Lossy(s) == [UnitChar(s)] + Lossy(s[UnitLen(s)..])
  {
  }

  /** A cut behind the first unit does not change it. */
  lemma UnitKept(s: Bytes, k: nat)
    requires s != [] && UnitLen(s) <= k <= |s|
    ensures UnitLen(s[..k]) == UnitLen(s) && UnitChar(s[..k]) == UnitChar(s)
  {
  }

  /** A cut inside the first unit leaves one malformed unit, and then stray bytes. */
  lemma UnitBroken(s: Bytes, k: nat)
    requires s != [] && 0 < k < UnitLen(s)
    ensures Lossy(s[..k]) == [REPLACEMENT] && UnitChar(s) as int >= 0x80
    ensures forall i | k <= i < UnitLen(s) :: Continues(s[i])
  {
    assert UnitLen(s[..k]) == k && UnitChar(s[..k]) == REPLACEMENT;
    assert s[..k][k..] == [];
  }

  function Replacements(n: nat): (r: string)
    ensures |r| == n && forall i | 0 <= i < n :: r[i] == REPLACEMENT
  {
    seq(n, _ => REPLACEMENT)
  }

  lemma ReplacementsCons(n: nat)
    requires n > 0
    ensures Replacements(n) == [REPLACEMENT] + Replacements(n - 1)
  {
  }

  lemma Stray(s: Bytes)
    requires s != [] && Continues(s[0])
    ensures Lossy(s) == [REPLACEMENT] + Lossy(s[1..])
  {
    LossyFirst(s);
    hide Lossy;
  }

  lemma {:induction false} Strays(s: Bytes, n: nat)
    requires n <= |s| && forall i | 0 <= i < n :: Continues(s[i])
    ensures Lossy(s) == Replacements(n) + Lossy(s[n..])
  {
    hide Lossy, Replacements;
    if n == 0 {
      DropNone(s);
      assert Replacements(0) + Lossy(s) == Lossy(s);
    } else {
      Stray(s);
      Strays(s[1..], n - 1);
      DropDrop(s, 1, n - 1);
      ReplacementsCons(n);
      Regroup([REPLACEMENT], Replacements(n - 1), Lossy(s[n..]));
    }
  }

  lemma DropDrop(s: Bytes, a: nat, b: nat)
    requires a + b <= |s|
    ensures s[a..][b..] == s[a + b..]
  {
  }

  lemma TakeDrop(s: Bytes, a: nat, b: nat)
    requires a <= b <= |s|
    ensures s[..b][a..] == s[a..][..b - a]
  {
  }

  lemma DropNone(s: Bytes)
    ensures s[0..] == s
  {
  }

  lemma DropHead(a: Bytes, b: Bytes)
    ensures (a + b)[|a|..] == b
  {
  }

  lemma Regroup<T>(a: seq<T>, b: seq<T>, c: seq<T>)
    ensures (a + b) + c == a + (b + c)
  {
  }

  // ---- Where a cut falls --------------------------------------------------------------------------

  /** The cut at `k` falls between two units. */
  predicate Boundary(s: Bytes, k: nat) {
    k == 0 || (s != [] && UnitLen(s) <= k && Boundary(s[UnitLen(s)..], k - UnitLen(s)))
  }

  /** Behind the first unit a cut of the whole is a cut of the rest. */
  lemma CutBehind(s: Bytes, k: nat)
    requires s != [] && UnitLen(s) <= k <= |s|
    ensures var u := UnitLen(s);
            && Lossy(s[..k]) == [UnitChar(s)] + Lossy(s[u..][..k - u]) && s[u..][k - u..] == s[k..]
            && Lossy(s) == [UnitChar(s)] + Lossy(s[u..])
            && (Boundary(s, k) <==> Boundary(s[u..], k - u))
  {
    var u := UnitLen(s);
    UnitKept(s, k);
    LossyFirst(s);
    LossyFirst(s[..k]);
    TakeDrop(s, u, k);
    DropDrop(s, u, k - u);
    FirstCut(s, k);
    hide Lossy, UnitLen, UnitChar, Boundary;
  }

  lemma FirstCut(s: Bytes, k: nat)
    ensures Boundary(s, k)
            <==> k == 0 || (s != [] && UnitLen(s) <= k && Boundary(s[UnitLen(s)..], k - UnitLen(s)))
    ensures Lossy([]) == []
  {
  }

  lemma {:induction false} CutBetween(s: Bytes, k: nat)
    requires k <= |s| && Boundary(s, k)
    ensures Lossy(s[..k]) + Lossy(s[k..]) == Lossy(s)
  {
    FirstCut(s, k);
    hide Lossy, UnitLen, UnitChar, Boundary;
    if k == 0 {
      assert s[0..] == s && s[..0] == [] && [] + Lossy(s) == Lossy(s);
    } else {
      var u := UnitLen(s);
      CutBehind(s, k);
      CutBetween(s[u..], k - u);
      assert [UnitChar(s)] + Lossy(s[u..][..k - u]) + Lossy(s[k..])
          == [UnitChar(s)] + (Lossy(s[u..][..k - u]) + Lossy(s[k..]));
    }
  }

  /** A cut inside a unit: its character becomes one replacement before the cut, and one for
      each byte behind it. */
  ghost predicate Breaks(s: Bytes, k: nat, front: string, c: char, n: nat, back: string)
    requires k <= |s|
  {
    && Lossy(s) == front + [c] + back && c as int >= 0x80 && n > 0
    && Lossy(s[..k]) == front + [REPLACEMENT] && Lossy(s[k..]) == Replacements(n) + back
  }

  lemma CutFirst(s: Bytes, k: nat)
    requires s != [] && 0 < k < UnitLen(s)
    ensures var u := UnitLen(s); Breaks(s, k, [], UnitChar(s), u - k, Lossy(s[u..]))
  {
    var u := UnitLen(s);
    LossyFirst(s);
    UnitBroken(s, k);
    Strays(s[k..], u - k);
    hide Lossy, UnitLen, UnitChar, Width;
    assert s[k..][u - k..] == s[u..];
    assert [] + [REPLACEMENT] == [REPLACEMENT] && [] + [UnitChar(s)] + Lossy(s[u..]) == [UnitChar(s)] + Lossy(s[u..]);
  }

  lemma {:induction false} CutInside(s: Bytes, k: nat) returns (front: string, c: char, n: nat, back: string)
    requires k <= |s| && !Boundary(s, k)
    ensures Breaks(s, k, front, c, n, back)
  {
    FirstCut(s, k);
    hide Lossy, UnitLen, UnitChar, Boundary;
    var u := UnitLen(s);
    if k < u {
      CutFirst(s, k);
      front, c, n, back := [], UnitChar(s), u - k, Lossy(s[u..]);
    } else {
      CutBehind(s, k);
      var rest;
      rest, c, n, back := CutInside(s[u..], k - u);
      front := [UnitChar(s)] + rest;
      assert front + [c] + back == [UnitChar(s)] + (rest + [c] + back);
      assert front + [REPLACEMENT] == [UnitChar(s)] + (rest + [REPLACEMENT]);
    }
  }

  lemma {:induction false} BoundaryOn(s: Bytes, a: nat, b: nat)
    requires a + b <= |s| && Boundary(s, a)
    ensures Boundary(s, a + b) <==> Boundary(s[a..], b)
  {
    hide Boundary, UnitLen;
    FirstCut(s, a);
    if a == 0 {
      DropNone(s);
    } else {
      var u := UnitLen(s);
      DropDrop(s, u, a - u);
      CutFurther(s, a - u + b);
      BoundaryOn(s[u..], a - u, b);
    }
  }

  lemma CutFurther(s: Bytes, k: nat)
    requires s != []
    ensures Boundary(s, UnitLen(s) + k) <==> Boundary(s[UnitLen(s)..], k)
  {
    FirstCut(s, UnitLen(s) + k);
    hide Boundary, UnitLen;
  }

  // ---- Decoding piece by piece ----------------------------------------------------------------------

  function Decoded(pieces: seq<Bytes>): string {
    if pieces == [] then [] else Lossy(pieces[0]) + Decoded(pieces[1..])
  }

  lemma {:induction false} DecodedSnoc(pieces: seq<Bytes>, last: Bytes)
    ensures Decoded(pieces + [last]) == Decoded(pieces) + Lossy(last)
  {
    hide Lossy;
    if pieces == [] {
      assert (pieces + [last])[1..] == [] && Decoded([]) + Lossy(last) == Lossy(last) + Decoded([]);
    } else {
      DecodedSnoc(pieces[1..], last);
      assert (pieces + [last])[1..] == pieces[1..] + [last] && (pieces + [last])[0] == pieces[0];
      Regroup(Lossy(pieces[0]), Decoded(pieces[1..]), Lossy(last));
    }
  }

  /** Every cut between two pieces falls between two units of the whole. */
  ghost predicate CleanCuts(pieces: seq<Bytes>) {
    forall k | 0 <= k <= |pieces| :: CleanCut(pieces, k)
  }

  ghost predicate CleanCut(pieces: seq<Bytes>, k: nat)
    requires k <= |pieces|
  {
    Boundary(Flatten(pieces), |Flatten(pieces[..k])|)
  }

  lemma CleanTail(pieces: seq<Bytes>)
    requires pieces != []
    ensures CleanCuts(pieces) <==> Boundary(Flatten(pieces), |pieces[0]|) && CleanCuts(pieces[1..])
  {
    var s, rest := Flatten(pieces), pieces[1..];
    assert pieces[..1] == [pieces[0]] && Flatten([pieces[0]]) == pieces[0] + Flatten([]) == pieces[0];
    assert CleanCut(pieces, 1) <==> Boundary(s, |pieces[0]|);
    assert s[|pieces[0]|..] == Flatten(rest);
    if Boundary(s, |pieces[0]|) {
      forall k | 0 <= k <= |rest|
        ensures CleanCut(rest, k) <==> CleanCut(pieces, k + 1)
      {
        CleanShift(pieces, k);
      }
      if CleanCuts(rest) {
        forall k | 0 <= k <= |pieces|
          ensures CleanCut(pieces, k)
        {
          if k > 0 { assert CleanCut(rest, k - 1); }
        }
      }
      if CleanCuts(pieces) {
        forall k | 0 <= k <= |rest|
          ensures CleanCut(rest, k)
        {
          assert CleanCut(pieces, k + 1);
        }
      }
    }
  }

  lemma CleanShift(pieces: seq<Bytes>, k: nat)
    requires pieces != [] && k < |pieces| && Boundary(Flatten(pieces), |pieces[0]|)
    ensures CleanCut(pieces[1..], k) <==> CleanCut(pieces, k + 1)
  {
    var s, rest := Flatten(pieces), pieces[1..];
    FlattenFirst(pieces, k);
    PrefixShorter(rest, k);
    DropHead(pieces[0], Flatten(rest));
    hide Boundary, Flatten;
    BoundaryOn(s, |pieces[0]|, |Flatten(rest[..k])|);
  }

  lemma FlattenFirst(pieces: seq<Bytes>, k: nat)
    requires k < |pieces|
    ensures Flatten(pieces) == pieces[0] + Flatten(pieces[1..])
    ensures |Flatten(pieces[..k + 1])| == |pieces[0]| + |Flatten(pieces[1..][..k])|
  {
    assert pieces[..k + 1][1..] == pieces[1..][..k] && pieces[..k + 1][0] == pieces[0];
  }

  lemma {:induction false} PrefixShorter(pieces: seq<Bytes>, k: nat)
    requires k <= |pieces|
    ensures |Flatten(pieces[..k])| <= |Flatten(pieces)|
  {
    if k > 0 {
      PrefixShorter(pieces[1..], k - 1);
      assert pieces[..k][1..] == pieces[1..][..k - 1];
    }
  }

  // ---- What unclean cuts do -------------------------------------------------------------------------

  function Joined(words: seq<string>): string {
    if words == [] then [] else words[0] + Joined(words[1..])
  }

  lemma JoinedFirst(words: seq<string>)
    requires words != []
    ensures Joined(words) == words[0] + Joined(words[1..])
  {
  }

  lemma {:induction false} JoinedConcat(a: seq<string>, b: seq<string>)
    ensures Joined(a + b) == Joined(a) + Joined(b)
  {
    if a == [] {
      assert a + b == b && Joined(a) + Joined(b) == Joined(b);
    } else {
      JoinedFirst(a);
      JoinedFirst(a + b);
      hide Joined;
      JoinedConcat(a[1..], b);
      assert (a + b)[1..] == a[1..] + b && (a + b)[0] == a[0];
      Regroup(a[0], Joined(a[1..]), Joined(b));
    }
  }

  /** A character stays, or, if it is not ASCII, becomes replacement characters. */
  predicate Word(c: char, w: string) {
    w == [c] || (c as int >= 0x80 && w != [] && forall i | 0 <= i < |w| :: w[i] == REPLACEMENT)
  }

  ghost predicate AsWords(text: string, words: seq<string>) {
    |words| == |text| && forall i | 0 <= i < |text| :: Word(text[i], words[i])
  }

  /** The other text is this one with some characters replaced. */
  ghost predicate Mangled(text: string, other: string) {
    exists words :: AsWords(text, words) && Joined(words) == other
  }

  lemma MangledConcat(a: string, a': string, b: string, b': string)
    requires Mangled(a, a') && Mangled(b, b')
    ensures Mangled(a + b, a' + b')
  {
    var v :| AsWords(a, v) && Joined(v) == a';
    var w :| AsWords(b, w) && Joined(w) == b';
    JoinedConcat(v, w);
    assert AsWords(a + b, v + w);
  }

  lemma MangledSplit(a: string, b: string, other: string) returns (a': string, b': string)
    requires Mangled(a + b, other)
    ensures other == a' + b' && Mangled(a, a') && Mangled(b, b')
  {
    var words :| AsWords(a + b, words) && Joined(words) == other;
    var v, w := words[..|a|], words[|a|..];
    assert words == v + w;
    JoinedConcat(v, w);
    a', b' := Joined(v), Joined(w);
    forall i | 0 <= i < |a| ensures Word(a[i], v[i]) { assert (a + b)[i] == a[i]; }
    forall i | 0 <= i < |b| ensures Word(b[i], w[i]) { assert (a + b)[|a| + i] == b[i]; }
    assert AsWords(a, v) && AsWords(b, w);
  }

  lemma MangledOne(c: char, w: string)
    requires Word(c, w)
    ensures Mangled([c], w)
  {
    assert [w][1..] == [] && w + [] == w;
    assert Joined([w]) == w && AsWords([c], [w]);
  }

  lemma {:induction false} MangledSelf(text: string)
    ensures Mangled(text, text)
  {
    if text == [] {
      assert AsWords([], []) && Joined([]) == [];
    } else {
      MangledOne(text[0], [text[0]]);
      MangledSelf(text[1..]);
      MangledConcat([text[0]], [text[0]], text[1..], text[1..]);
      assert [text[0]] + text[1..] == text;
    }
  }

  /** What became of replacement characters is more of them. */
  lemma {:induction false} MangledReplacements(n: nat, other: string)
    requires Mangled(Replacements(n), other)
    ensures |other| >= n && forall i | 0 <= i < |other| :: other[i] == REPLACEMENT
  {
    if n == 0 {
      var words :| AsWords(Replacements(0), words) && Joined(words) == other;
    } else {
      assert Replacements(n) == [REPLACEMENT] + Replacements(n - 1);
      var a, b := MangledSplit([REPLACEMENT], Replacements(n - 1), other);
      MangledReplacements(n - 1, b);
      OneWord(REPLACEMENT, a);
    }
  }

  lemma OneWord(c: char, other: string)
    requires Mangled([c], other)
    ensures Word(c, other)
  {
    var words :| AsWords([c], words) && Joined(words) == other;
    assert words[1..] == [] && Joined([]) == [] && Joined(words) == words[0];
    assert Word([c][0], words[0]);
  }

  /** ASCII text is never touched. */
  lemma {:induction false} MangledAscii(text: string, other: string)
    requires Mangled(text, other) && forall i | 0 <= i < |text| :: text[i] as int < 0x80
    ensures other == text
  {
    if text == [] {
      var words :| AsWords(text, words) && Joined(words) == other;
    } else {
      assert [text[0]] + text[1..] == text;
      var a, b := MangledSplit([text[0]], text[1..], other);
      OneWord(text[0], a);
      MangledAscii(text[1..], b);
    }
  }

  /** Decoding piece by piece mangles the text of the whole. */
  lemma {:induction false} DecodedMangles(pieces: seq<Bytes>)
    ensures Mangled(Lossy(Flatten(pieces)), Decoded(pieces))
  {
    hide Mangled, Lossy, Boundary;
    if pieces == [] {
      EmptyMangles();
    } else {
      var s, rest, k := Flatten(pieces), Flatten(pieces[1..]), |pieces[0]|;
      DecodedMangles(pieces[1..]);
      assert s[..k] == pieces[0] && s[k..] == rest;
      if Boundary(s, k) {
        CutBetween(s, k);
        MangledSelf(Lossy(pieces[0]));
        MangledConcat(Lossy(pieces[0]), Lossy(pieces[0]), Lossy(rest), Decoded(pieces[1..]));
      } else {
        var front, c, n, back := CutInside(s, k);
        CutMangles(front, c, n, back, Decoded(pieces[1..]));
      }
    }
  }

  lemma EmptyMangles()
    ensures Mangled(Lossy([]), [])
  {
    var none := Lossy([]);
    assert none == [];
    MangledSelf(none);
  }

  lemma CutMangles(front: string, c: char, n: nat, back: string, other: string)
    requires Mangled(Replacements(n) + back, other) && c as int >= 0x80
    ensures Mangled(front + [c] + back, front + [REPLACEMENT] + other)
  {
    var x, y := MangledSplit(Replacements(n), back, other);
    MangledReplacements(n, x);
    MangledOne(c, [REPLACEMENT] + x);
    MangledSelf(front);
    hide Mangled;
    MangledConcat(front, front, [c], [REPLACEMENT] + x);
    MangledConcat(front + [c], front + ([REPLACEMENT] + x), back, y);
    assert front + ([REPLACEMENT] + x) + y == front + [REPLACEMENT] + other;
  }

  lemma {:induction false} MangledLonger(text: string, other: string)
    requires Mangled(text, other)
    ensures |other| >= |text|
  {
    if text != [] {
      assert [text[0]] + text[1..] == text;
      var a, b := MangledSplit([text[0]], text[1..], other);
      OneWord(text[0], a);
      MangledLonger(text[1..], b);
    }
  }

  /** Decoding piece by piece gives the text of the whole exactly when no cut falls inside a
      unit. */
  lemma {:induction false} DecodedIff(pieces: seq<Bytes>)
    ensures Decoded(pieces) == Lossy(Flatten(pieces)) <==> CleanCuts(pieces)
  {
    if pieces == [] {
      assert CleanCut(pieces, 0);
    } else {
      var s, rest, k := Flatten(pieces), Flatten(pieces[1..]), |pieces[0]|;
      DecodedIff(pieces[1..]);
      CleanTail(pieces);
      hide CleanCuts, Lossy, Boundary;
      assert s[..k] == pieces[0] && s[k..] == rest;
      if Boundary(s, k) {
        CutBetween(s, k);
        SameSuffix(Lossy(pieces[0]), Decoded(pieces[1..]), Lossy(rest));
      } else {
        var front, c, n, back := CutInside(s, k);
        DecodedMangles(pieces[1..]);
        MangledLonger(Lossy(rest), Decoded(pieces[1..]));
      }
    }
  }

  lemma SameSuffix(a: string, b: string, c: string)
    ensures a + b == a + c <==> b == c
  {
    if a + b == a + c { assert (a + b)[|a|..] == b && (a + c)[|a|..] == c; }
  }

  // ---- Encoding -------------------------------------------------------------------------------------

  function Encode(c: char): (s: Bytes)
    ensures s != []
  {
    var n := c as int;
    if n < 0x80 then [n]
    else if n < 0x800 then [0xC0 + n / 64, 0x80 + n % 64]
    else if n < 0x10000 then [0xE0 + n / 4096, 0x80 + n / 64 % 64, 0x80 + n % 64]
    else [0xF0 + n / 262144, 0x80 + n / 4096 % 64, 0x80 + n / 64 % 64, 0x80 + n % 64]
  }

  function EncodeAll(text: string): Bytes {
    if text == [] then [] else Encode(text[0]) + EncodeAll(text[1..])
  }

  lemma TwoBytes(n: nat)
    requires 0x80 <= n < 0x800
    ensures 0xC2 <= 0xC0 + n / 64 < 0xE0 && Two(0xC0 + n / 64, 0x80 + n % 64) as int == n
  {
  }

  lemma ThreeBytes(n: nat)
    requires 0x800 <= n < 0x10000 && !(0xD800 <= n < 0xE000)
    ensures var a, b, c := 0xE0 + n / 4096, 0x80 + n / 64 % 64, 0x80 + n % 64;
            && 0xE0 <= a < 0xF0 && (a == 0xE0 ==> b >= 0xA0) && (a == 0xED ==> b < 0xA0)
            && Three(a, b, c) as int == n
  {
  }

  lemma FourBytes(n: nat)
    requires 0x10000 <= n < 0x110000
    ensures var a, b, c, d := 0xF0 + n / 262144, 0x80 + n / 4096 % 64, 0x80 + n / 64 % 64, 0x80 + n % 64;
            && 0xF0 <= a < 0xF5 && (a == 0xF0 ==> b >= 0x90) && (a == 0xF4 ==> b < 0x90)
            && Four(a, b, c, d) as int == n
  {
    var x, y, z := n / 64, n / 4096, n / 262144;
    assert y == x / 64 && z == y / 64;
    assert n == 64 * x + n % 64 && x == 64 * y + x % 64 && y == 64 * z + y % 64;
  }

  /** The encoding of a character is one unit, whatever follows. */
  lemma EncodedUnit(c: char, rest: Bytes)
    ensures UnitLen(Encode(c) + rest) == |Encode(c)| && UnitChar(Encode(c) + rest) == c
  {
    var n := c as int;
    var e := Encode(c);
    var s := e + rest;
    assert s[..|e|] == e;
    hide Two, Three, Four;
    if n < 0x80 {
      assert s[0] == e[0];
    } else if n < 0x800 {
      TwoBytes(n);
      assert s[0] == e[0] && s[1] == e[1];
    } else if n < 0x10000 {
      ThreeBytes(n);
      assert s[0] == e[0] && s[1] == e[1] && s[2] == e[2];
    } else {
      FourBytes(n);
      assert s[0] == e[0] && s[1] == e[1] && s[2] == e[2] && s[3] == e[3];
    }
  }

  lemma EncodeFirst(text: string)
    requires text != []
    ensures EncodeAll(text) == Encode(text[0]) + EncodeAll(text[1..])
  {
  }

  lemma EncodedNone(rest: Bytes)
    ensures EncodeAll([]) + rest == rest && Lossy(rest) == [] + Lossy(rest)
  {
    hide Lossy;
  }

  /** The first character comes off an encoded text. */
  lemma EncodedFirst(text: string, rest: Bytes)
    requires text != []
    ensures Lossy(EncodeAll(text) + rest) == [text[0]] + Lossy(EncodeAll(text[1..]) + rest)
  {
    var head, tail := Encode(text[0]), EncodeAll(text[1..]) + rest;
    EncodeFirst(text);
    EncodedUnit(text[0], tail);
    LossyFirst(head + tail);
    hide Encode, EncodeAll, UnitLen, UnitChar, Lossy;
    Regroup(head, EncodeAll(text[1..]), rest);
    DropHead(head, tail);
  }

  lemma {:induction false} EncodedThen(text: string, rest: Bytes)
    ensures Lossy(EncodeAll(text) + rest) == text + Lossy(rest)
  {
    hide EncodeAll, Lossy;
    if text == [] {
      EncodedNone(rest);
    } else {
      EncodedFirst(text, rest);
      EncodedThen(text[1..], rest);
      assert text + Lossy(rest) == [text[0]] + (text[1..] + Lossy(rest));
    }
  }

  /** Decoding undoes encoding. */
  lemma DecodesEncoded(text: string)
    ensures Lossy(EncodeAll(text)) == text
  {
    EncodedThen(text, []);
    assert EncodeAll(text) + [] == EncodeAll(text) && text + [] == text;
  }

  /** The cut falls between two characters of the encoded text. */
  ghost predicate Between(text: string, k: nat) {
    exists i | 0 <= i <= |text| :: IsBetween(text, k, i)
  }

  predicate IsBetween(text: string, k: nat, i: nat)
    requires i <= |text|
  {
    k == |EncodeAll(text[..i])|
  }

  lemma BetweenNone(text: string, k: nat)
    ensures IsBetween(text, k, 0) <==> k == 0
  {
    assert text[..0] == [];
  }

  lemma BetweenShift(text: string, k: nat, i: nat)
    requires text != [] && i < |text|
    ensures IsBetween(text, k, i + 1)
            <==> k >= |Encode(text[0])| && IsBetween(text[1..], k - |Encode(text[0])|, i)
  {
    assert text[..i + 1][1..] == text[1..][..i] && text[..i + 1][0] == text[0];
    EncodeFirst(text[..i + 1]);
    hide EncodeAll, Encode;
  }

  lemma BetweenRest(text: string, k: nat)
    requires text != []
    ensures Between(text, k)
            <==> k == 0 || (k >= |Encode(text[0])| && Between(text[1..], k - |Encode(text[0])|))
  {
    BetweenNone(text, k);
    hide EncodeAll, Encode, IsBetween;
    if Between(text, k) && k != 0 {
      var i :| 0 <= i <= |text| && IsBetween(text, k, i);
      BetweenShift(text, k, i - 1);
    }
    if k >= |Encode(text[0])| && Between(text[1..], k - |Encode(text[0])|) {
      var i :| 0 <= i <= |text[1..]| && IsBetween(text[1..], k - |Encode(text[0])|, i);
      BetweenShift(text, k, i);
    }
  }

  /** The clean cuts of an encoded text are those between two of its characters. */
  lemma {:induction false} BetweenCharacters(text: string, k: nat)
    ensures Boundary(EncodeAll(text), k) <==> Between(text, k)
  {
    if text == [] {
      assert Between(text, k) <==> k == 0 by { BetweenNone(text, k); }
    } else {
      var head, tail := Encode(text[0]), EncodeAll(text[1..]);
      EncodeFirst(text);
      EncodedUnit(text[0], tail);
      FirstCut(head + tail, k);
      BetweenRest(text, k);
      hide EncodeAll, Encode, Between, Boundary, UnitLen, UnitChar;
      DropHead(head, tail);
      if k >= |head| { BetweenCharacters(text[1..], k - |head|); }
    }
  }
}
