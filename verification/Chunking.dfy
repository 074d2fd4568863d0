/** The fixed-size chunk grid of an image, splitting byte runs at chunk boundaries, and
    the history of pieces a producer has emitted. */
module Chunking {
  import opened Bytes
  import opened Coverage
  import opened Arithmetic

  /** `total` bytes cut into chunks of `size`; the last chunk may be shorter. */
  datatype Grid = Grid(size: nat, total: nat) {
    predicate Valid() { size > 0 }

    function Count(): (n: nat)
      requires Valid()
    {
      (total + size - 1) / size
    }

    predicate Has(idx: nat) { idx * size < total }

    function Len(idx: nat): (n: nat)
      requires Valid() && Has(idx)
      ensures 0 < n <= size
    {
      if size <= total - idx * size then size else total - idx * size
    }
  }

  /** The chunk lengths, in order. Everything below the grid speaks of these only. */
  function Lens(g: Grid): (lens: seq<nat>)
    requires g.Valid()
    ensures |lens| == g.Count()
  {
    LensTo(g, g.Count())
  }

  function LensTo(g: Grid, n: nat): (lens: seq<nat>)
    requires g.Valid() && n <= g.Count()
    ensures |lens| == n
  {
    if n == 0 then [] else CountIff(g, n - 1); LensTo(g, n - 1) + [g.Len(n - 1)]
  }

  lemma {:induction false} LensAt(g: Grid, n: nat, i: nat)
    requires g.Valid() && i < n <= g.Count()
    ensures g.Has(i) && LensTo(g, n)[i] == g.Len(i)
  {
    CountIff(g, i);
    if i < n - 1 { LensAt(g, n - 1, i); }
  }

  function ChunkAt(g: Grid, image: Bytes, idx: nat): (c: Bytes)
    requires g.Valid() && |image| == g.total && g.Has(idx)
    ensures |c| == g.Len(idx)
  {
    image[idx * g.size..idx * g.size + g.Len(idx)]
  }

  /** An image cut into its chunks. */
  function Cut(g: Grid, image: Bytes): (chunks: seq<Bytes>)
    requires g.Valid() && |image| == g.total
    ensures |chunks| == g.Count()
  {
    CutTo(g, image, g.Count())
  }

  function CutTo(g: Grid, image: Bytes, n: nat): (chunks: seq<Bytes>)
    requires g.Valid() && |image| == g.total && n <= g.Count()
    ensures |chunks| == n
  {
    if n == 0 then [] else CountIff(g, n - 1); CutTo(g, image, n - 1) + [ChunkAt(g, image, n - 1)]
  }

  lemma {:induction false} CutAt(g: Grid, image: Bytes, n: nat, i: nat)
    requires g.Valid() && |image| == g.total && i < n <= g.Count()
    ensures g.Has(i) && CutTo(g, image, n)[i] == ChunkAt(g, image, i)
  {
    CountIff(g, i);
    if i < n - 1 { CutAt(g, image, n - 1, i); }
  }

  lemma CountIff(g: Grid, idx: nat)
    requires g.Valid()
    ensures g.Has(idx) <==> idx < g.Count()
  {
    var n := g.Count();
    DivBounds(g.total + g.size - 1, g.size);
    if idx < n {
      MulMono(idx + 1, n, g.size);
      assert (idx + 1) * g.size == idx * g.size + g.size;
    } else {
      MulMono(n, idx, g.size);
    }
  }

  /** Every image position lies in exactly one chunk, inside its length. */
  lemma Locate(g: Grid, pos: nat)
    requires g.Valid() && pos < g.total
    ensures g.Has(pos / g.size) && pos % g.size < g.Len(pos / g.size)
    ensures pos / g.size < g.Count()
    ensures pos == (pos / g.size) * g.size + pos % g.size
  {
    DivBounds(pos, g.size);
    CountIff(g, pos / g.size);
  }

  lemma Place(g: Grid, idx: nat, k: nat)
    requires g.Valid() && idx < g.Count() && g.Has(idx) && k < g.Len(idx)
    ensures idx * g.size + k < g.total
    ensures (idx * g.size + k) / g.size == idx && (idx * g.size + k) % g.size == k
  {
    DivUnique(idx, k, g.size);
  }

  // ---- Pieces ----------------------------------------------------------------

  /** A fragment of one chunk. */
  datatype Piece = Piece(idx: nat, frag: Frag)

  predicate Fits(lens: seq<nat>, p: Piece) {
    p.idx < |lens| && 0 < |p.frag.bytes| && p.frag.End() <= lens[p.idx]
  }

  predicate AllFit(lens: seq<nat>, hist: seq<Piece>) {
    forall i | 0 <= i < |hist| :: Fits(lens, hist[i])
  }

  /** The run `data` at image offset `at`, cut at chunk boundaries. */
  function Split(g: Grid, at: nat, data: Bytes): (ps: seq<Piece>)
    requires g.Valid()
    decreases |data|
  {
    if |data| == 0 then [] else
      var take := Take(g, at, |data|);
      [Piece(at / g.size, Frag(at % g.size, data[..take]))] + Split(g, at + take, data[take..])
  }

  function Take(g: Grid, at: nat, rest: nat): (t: nat)
    requires g.Valid() && rest > 0
    ensures 0 < t <= rest
  {
    var room := g.size - at % g.size;
    if room <= rest then room else rest
  }

  /** How many pieces cover image position `pos`. */
  function Hits(g: Grid, hist: seq<Piece>, pos: nat): (n: nat)
    requires g.Valid()
  {
    Cnt(Of(hist, pos / g.size), pos % g.size)
  }

  /** The fragments of chunk `idx`, in emission order. */
  function Of(hist: seq<Piece>, idx: nat): (fs: seq<Frag>) {
    if |hist| == 0 then []
    else
      var last := hist[|hist| - 1];
      var init := Of(hist[..|hist| - 1], idx);
      if last.idx == idx then init + [last.frag] else init
  }

  lemma OfSnoc(hist: seq<Piece>, p: Piece, idx: nat)
    ensures Of(hist + [p], idx) == if p.idx == idx then Of(hist, idx) + [p.frag] else Of(hist, idx)
  {
    assert (hist + [p])[..|hist|] == hist;
  }

  lemma {:induction false} OfConcat(a: seq<Piece>, b: seq<Piece>, idx: nat)
    ensures Of(a + b, idx) == Of(a, idx) + Of(b, idx)
  {
    if |b| == 0 {
      assert a + b == a;
    } else {
      var init, last := b[..|b| - 1], b[|b| - 1];
      OfConcat(a, init, idx);
      assert a + b == (a + init) + [last] && b == init + [last];
      OfSnoc(a + init, last, idx);
      OfSnoc(init, last, idx);
      hide Of;
      assert Of(a, idx) + (Of(init, idx) + [last.frag]) == Of(a, idx) + Of(init, idx) + [last.frag];
    }
  }

  lemma {:induction false} CntConcat(a: seq<Frag>, b: seq<Frag>, k: nat)
    ensures Cnt(a + b, k) == Cnt(a, k) + Cnt(b, k)
  {
    if |b| == 0 {
      assert a + b == a;
    } else {
      CntConcat(a, b[..|b| - 1], k);
      assert (a + b)[..|a + b| - 1] == a + b[..|b| - 1];
    }
  }

  lemma HitsConcat(g: Grid, a: seq<Piece>, b: seq<Piece>, pos: nat)
    requires g.Valid()
    ensures Hits(g, a + b, pos) == Hits(g, a, pos) + Hits(g, b, pos)
  {
    OfConcat(a, b, pos / g.size);
    CntConcat(Of(a, pos / g.size), Of(b, pos / g.size), pos % g.size);
  }

  lemma {:induction false} OfWithin(lens: seq<nat>, hist: seq<Piece>, idx: nat)
    requires AllFit(lens, hist) && idx < |lens|
    ensures Within(Of(hist, idx), lens[idx])
  {
    if |hist| > 0 { OfWithin(lens, hist[..|hist| - 1], idx); }
  }

  lemma HeadFits(g: Grid, at: nat, rest: nat)
    requires g.Valid() && rest > 0 && at + rest <= g.total
    ensures at / g.size < |Lens(g)| && at % g.size + Take(g, at, rest) <= Lens(g)[at / g.size]
  {
    Locate(g, at);
    LensAt(g, g.Count(), at / g.size);
  }

  lemma AllFitCons(lens: seq<nat>, p: Piece, rest: seq<Piece>)
    requires Fits(lens, p) && AllFit(lens, rest)
    ensures AllFit(lens, [p] + rest)
  {
  }

  lemma {:induction false} SplitFits(g: Grid, at: nat, data: Bytes)
    requires g.Valid() && at + |data| <= g.total
    ensures AllFit(Lens(g), Split(g, at, data))
    decreases |data|
  {
    if |data| > 0 {
      var take := Take(g, at, |data|);
      var head, tail := Piece(at / g.size, Frag(at % g.size, data[..take])), Split(g, at + take, data[take..]);
      assert Split(g, at, data) == [head] + tail;
      hide Lens, Take, Split, AllFit;
      HeadFits(g, at, |data|);
      SplitFits(g, at + take, data[take..]);
      AllFitCons(Lens(g), head, tail);
    }
  }

  /** Positions of one piece of a split run. */
  lemma PieceHits(g: Grid, at: nat, take: nat, pos: nat)
    requires g.Valid() && 0 < take <= g.size - at % g.size
    ensures (at / g.size == pos / g.size && at % g.size <= pos % g.size < at % g.size + take) <==> at <= pos < at + take
  {
    DivBounds(at, g.size);
    DivBounds(pos, g.size);
    if at <= pos < at + take {
      DivUnique(at / g.size, at % g.size + (pos - at), g.size);
    }
  }

  /** Splitting loses and repeats nothing: a position is hit once if the run has it. */
  lemma {:induction false} SplitHits(g: Grid, at: nat, data: Bytes, pos: nat)
    requires g.Valid()
    ensures Hits(g, Split(g, at, data), pos) == if at <= pos < at + |data| then 1 else 0
    decreases |data|
  {
    hide Cnt, Of;
    if |data| == 0 {
      HitsNone(g, pos);
    } else {
      var take := Take(g, at, |data|);
      var head := Piece(at / g.size, Frag(at % g.size, data[..take]));
      var tail := Split(g, at + take, data[take..]);
      SplitHits(g, at + take, data[take..], pos);
      HitsConcat(g, [head], tail, pos);
      PieceHits(g, at, take, pos);
      HitsOne(g, head, pos);
      hide Hits;
    }
  }

  lemma HitsNone(g: Grid, pos: nat)
    requires g.Valid()
    ensures Hits(g, [], pos) == 0
  {
  }

  lemma HitsOne(g: Grid, p: Piece, pos: nat)
    requires g.Valid()
    ensures Hits(g, [p], pos) == if p.idx == pos / g.size && p.frag.Has(pos % g.size) then 1 else 0
  {
    var idx, k := pos / g.size, pos % g.size;
    OfSnoc([], p, idx);
    assert [] + [p] == [p];
    CntOne(p.frag, k);
    assert Of([p], idx) == if p.idx == idx then [p.frag] else [];
  }

  lemma CntOne(f: Frag, k: nat)
    ensures Cnt([f], k) == if f.Has(k) then 1 else 0
  {
    assert [f][..0] == [];
  }

  // ---- Agreement with an image ------------------------------------------------

  ghost predicate PieceAgrees(chunks: seq<Bytes>, p: Piece) {
    && p.idx < |chunks| && p.frag.End() <= |chunks[p.idx]|
    && p.frag.bytes == chunks[p.idx][p.frag.off..p.frag.End()]
  }

  ghost predicate HistAgrees(chunks: seq<Bytes>, hist: seq<Piece>) {
    forall i | 0 <= i < |hist| :: PieceAgrees(chunks, hist[i])
  }

  /** The first piece of a run, and the rest. */
  lemma SplitHead(g: Grid, at: nat, data: Bytes) returns (idx: nat, off: nat, take: nat)
    requires g.Valid() && data != []
    ensures at == idx * g.size + off && 0 < take <= g.size - off && take <= |data|
    ensures Split(g, at, data) == [Piece(idx, Frag(off, data[..take]))] + Split(g, at + take, data[take..])
  {
    idx, off, take := at / g.size, at % g.size, Take(g, at, |data|);
    DivBounds(at, g.size);
  }

  lemma {:induction false} SplitAgrees(g: Grid, image: Bytes, at: nat, data: Bytes)
    requires g.Valid() && |image| == g.total && at + |data| <= g.total
    requires data == image[at..at + |data|]
    ensures HistAgrees(Cut(g, image), Split(g, at, data))
    decreases |data|
  {
    if data != [] {
      hide Split, Take, Cut, PieceAgrees;
      var idx, off, take := SplitHead(g, at, data);
      RunHead(image, at, data, take);
      SplitAgrees(g, image, at + take, data[take..]);
      HeadAgrees(g, image, idx, off, at, take);
    }
  }

  lemma RunHead(image: Bytes, at: nat, data: Bytes, take: nat)
    requires take <= |data| && at + |data| <= |image| && data == image[at..at + |data|]
    ensures data[..take] == image[at..at + take] && data[take..] == image[at + take..at + |data|]
  {
  }

  lemma SliceSlice(s: Bytes, a: nat, b: nat, i: nat, j: nat)
    requires a <= b <= |s| && i <= j <= b - a
    ensures s[a..b][i..j] == s[a + i..a + j]
  {
    assert forall k | 0 <= k < j - i :: s[a..b][i..j][k] == s[a + i..a + j][k];
  }

  lemma HeadAgrees(g: Grid, image: Bytes, idx: nat, off: nat, at: nat, take: nat)
    requires g.Valid() && |image| == g.total && at == idx * g.size + off
    requires 0 < take <= g.size - off && at + take <= g.total
    ensures PieceAgrees(Cut(g, image), Piece(idx, Frag(off, image[at..at + take])))
  {
    hide CutTo;
    CountIff(g, idx);
    CutAt(g, image, g.Count(), idx);
    SliceSlice(image, idx * g.size, idx * g.size + g.Len(idx), off, off + take);
  }

  lemma {:induction false} OfAgrees(chunks: seq<Bytes>, hist: seq<Piece>, idx: nat)
    requires HistAgrees(chunks, hist) && idx < |chunks|
    ensures Agrees(Of(hist, idx), chunks[idx])
  {
    if |hist| > 0 {
      OfAgrees(chunks, hist[..|hist| - 1], idx);
      assert PieceAgrees(chunks, hist[|hist| - 1]);
    }
  }
}
