/** Re-chunking only what a sparse diff touches: the next manifest is built from the
    previous one and the dirty chunks, without reading the rest of the image. */
module SparseRechunk {
  import opened Bytes
  import opened Arithmetic
  import opened Chunking
  import opened Manifests
  import opened Uploader
  import opened Delta
  import opened Wrappers

  datatype Range = Range(off: nat, len: nat) {
    predicate Has(pos: nat) { off <= pos < off + len }
  }

  predicate Dirty(ranges: seq<Range>, pos: nat) {
    exists i | 0 <= i < |ranges| :: ranges[i].Has(pos)
  }

  /** A byte after the write, given what it was. */
  function ByteAfter(ranges: seq<Range>, diff: Bytes, pos: nat, was: byte): byte {
    if Dirty(ranges, pos) && pos < |diff| then diff[pos] else was
  }

  /** The diff holds every dirty byte of the image. */
  ghost predicate DiffCovers(ranges: seq<Range>, diff: Bytes, total: nat) {
    forall pos | 0 <= pos < total && Dirty(ranges, pos) :: pos < |diff|
  }

  /** The image after the write: dirty bytes from the diff, the rest as before. */
  ghost predicate Written(ranges: seq<Range>, diff: Bytes, prev: Bytes, next: Bytes) {
    && |next| == |prev| && DiffCovers(ranges, diff, |prev|)
    && forall pos | 0 <= pos < |prev| :: next[pos] == ByteAfter(ranges, diff, pos, prev[pos])
  }

  // ---- Which chunks are dirty ---------------------------------------------------------

  /** The last image position a non-empty range can mean, clamped as the code clamps it. */
  function LastByte(g: Grid, r: Range): nat
    requires r.len > 0
  {
    var last := if g.total == 0 then 0 else g.total - 1;
    if r.off + r.len - 1 <= last then r.off + r.len - 1 else last
  }

  /** The range has a position in the chunk's span. */
  ghost predicate Touches(g: Grid, r: Range, idx: nat)
    requires g.Valid()
  {
    exists pos: nat :: r.Has(pos) && pos / g.size == idx
  }

  ghost predicate Touched(g: Grid, ranges: seq<Range>, idx: nat)
    requires g.Valid()
  {
    exists i | 0 <= i < |ranges| :: Touches(g, ranges[i], idx)
  }

  /** The chunk indices the ranges touch, without those past the image. */
  method DirtyChunks(g: Grid, ranges: seq<Range>) returns (dirty: set<nat>)
    requires g.Valid()
    ensures forall idx: nat :: idx in dirty <==> idx < g.Count() && Touched(g, ranges, idx)
  {
    var all: set<nat> := {};
    hide Spans;
    for k := 0 to |ranges|
      invariant forall j: nat :: j in all <==> exists i | 0 <= i < k :: Spans(g, ranges[i], j)
    {
      all := AddSpan(g, ranges[k], all);
    }
    dirty := set idx | idx in all && idx * g.size < g.total;
    forall idx: nat
      ensures idx in dirty <==> idx < g.Count() && Touched(g, ranges, idx)
    {
      TouchedIff(g, ranges, idx);
    }
  }

  method AddSpan(g: Grid, r: Range, all: set<nat>) returns (all': set<nat>)
    requires g.Valid()
    ensures forall j: nat :: j in all' <==> j in all || Spans(g, r, j)
  {
    all' := all;
    if r.len > 0 {
      var first, end := r.off / g.size, LastByte(g, r) / g.size;
      var idx := first;
      while idx <= end
        invariant first <= idx
        invariant forall j: nat :: j in all' <==> j in all || (first <= j < idx && j <= end)
      {
        all' := all' + {idx};
        idx := idx + 1;
      }
    }
  }

  lemma TouchedIff(g: Grid, ranges: seq<Range>, idx: nat)
    requires g.Valid()
    ensures idx < g.Count() <==> idx * g.size < g.total
    ensures idx < g.Count() ==> (Touched(g, ranges, idx) <==> exists i | 0 <= i < |ranges| :: Spans(g, ranges[i], idx))
  {
    CountIff(g, idx);
    hide Spans, Touches;
    if idx < g.Count() {
      forall i | 0 <= i < |ranges|
        ensures Spans(g, ranges[i], idx) <==> Touches(g, ranges[i], idx)
      {
        SpansIff(g, ranges[i], idx);
      }
    }
  }

  /** The chunk lies between the chunks of the range's first and clamped last byte. */
  predicate Spans(g: Grid, r: Range, idx: nat)
    requires g.Valid()
  {
    r.len > 0 && r.off / g.size <= idx <= LastByte(g, r) / g.size
  }

  /** For a chunk of the image, clamping the range to the image makes no difference. */
  lemma SpansIff(g: Grid, r: Range, idx: nat)
    requires g.Valid() && idx < g.Count() && g.Has(idx)
    ensures Spans(g, r, idx) <==> Touches(g, r, idx)
  {
    var start := idx * g.size;
    DivIff(r.off, g.size, idx);
    if r.len > 0 { DivIff(LastByte(g, r), g.size, idx); }
    if Spans(g, r, idx) {
      var pos := if r.off <= start then start else r.off;
      DivIff(pos, g.size, idx);
      assert r.Has(pos) && pos / g.size == idx;
    }
    if Touches(g, r, idx) {
      var pos: nat :| r.Has(pos) && pos / g.size == idx;
      DivIff(pos, g.size, idx);
    }
  }

  // ---- Rebuilding one dirty chunk ---------------------------------------------------------

  datatype Slice = Rebuilt(bytes: Bytes) | Missing(hash: Digest) | DiffShort

  function Seed(prevHash: Option<Digest>, store: map<Digest, Bytes>, want: nat): (b: Bytes)
    requires prevHash.Some? ==> prevHash.value in store
    ensures |b| == want
  {
    match prevHash
    case None => Zeros(want)
    case Some(h) => if |store[h]| >= want then store[h][..want] else store[h] + Zeros(want - |store[h]|)
  }

  /** Seeds the chunk from its previous content and overlays the dirty bytes in place. */
  method RebuildChunk(offset: nat, want: nat, prevHash: Option<Digest>, store: map<Digest, Bytes>, diff: Bytes,
                      ranges: seq<Range>)
    returns (r: Slice)
    ensures r.Missing? <==> prevHash.Some? && prevHash.value !in store
    ensures r.Missing? ==> r.hash == prevHash.value
    ensures !r.Missing? ==>
              (r.DiffShort? <==> exists pos | offset <= pos < offset + want :: Dirty(ranges, pos) && pos >= |diff|)
    ensures r.Rebuilt? ==> |r.bytes| == want && forall k | 0 <= k < want ::
              r.bytes[k] == ByteAfter(ranges, diff, offset + k, Seed(prevHash, store, want)[k])
  {
    if prevHash.Some? && prevHash.value !in store {
      return Missing(prevHash.value);
    }
    var seed := Seed(prevHash, store, want);
    var slice := new byte[want](i requires 0 <= i < want => seed[i]);
    for k := 0 to |ranges|
      invariant forall pos: nat | offset <= pos < offset + want && Dirty(ranges[..k], pos) :: pos < |diff|
      invariant forall i | 0 <= i < want :: slice[i] == ByteAfter(ranges[..k], diff, offset + i, seed[i])
    {
      DirtySnoc(ranges, k);
      var off, len := ranges[k].off, ranges[k].len;
      var lo := if off <= offset then offset else off;
      var hi := if off + len <= offset + want then off + len else offset + want;
      if len > 0 && lo < hi {
        if hi > |diff| {
          assert ranges[k].Has(hi - 1) && Dirty(ranges, hi - 1);
          return DiffShort;
        }
        forall i | lo - offset <= i < hi - offset {
          slice[i] := diff[offset + i];
        }
      }
      ghost var upto := ranges[..k + 1];
      forall pos: nat | offset <= pos < offset + want && Dirty(upto, pos)
        ensures pos < |diff|
      {
        if ranges[k].Has(pos) { assert lo <= pos < hi; }
      }
    }
    assert ranges[..|ranges|] == ranges;
    r := Rebuilt(slice[..]);
  }

  lemma DirtySnoc(ranges: seq<Range>, k: nat)
    requires k < |ranges|
    ensures forall pos :: Dirty(ranges[..k + 1], pos) <==> Dirty(ranges[..k], pos) || ranges[k].Has(pos)
  {
    forall pos
      ensures Dirty(ranges[..k + 1], pos) <==> Dirty(ranges[..k], pos) || ranges[k].Has(pos)
    {
      assert ranges[..k + 1][k] == ranges[k];
      assert forall i | 0 <= i < k :: ranges[..k + 1][i] == ranges[..k][i];
    }
  }

  // ---- Lookups in the canonical list --------------------------------------------------------

  function RefAt(chunks: seq<Bytes>, hash: Bytes -> Digest, idx: nat): Option<Digest> {
    if idx < |chunks| && !AllZero(chunks[idx]) then Some(hash(chunks[idx])) else None
  }

  /** What the refs of the chunks below `n` list for offset `o`. */
  function Listing(size: nat, chunks: seq<Bytes>, hash: Bytes -> Digest, n: nat, o: nat): Option<Digest>
    requires size > 0
  {
    if o % size == 0 && o / size < n then RefAt(chunks, hash, o / size) else None
  }

  lemma ListingSnoc(size: nat, chunks: seq<Bytes>, hash: Bytes -> Digest, n: nat, o: nat)
    requires size > 0 && n > 0
    ensures Listing(size, chunks, hash, n, o)
            == if o == (n - 1) * size then RefAt(chunks, hash, n - 1) else Listing(size, chunks, hash, n - 1, o)
    ensures o == (n - 1) * size ==> Listing(size, chunks, hash, n - 1, o) == None
  {
    MultipleIff(n - 1, size, o);
    hide RefAt;
  }

  lemma ListingNone(size: nat, chunks: seq<Bytes>, hash: Bytes -> Digest, o: nat)
    requires size > 0
    ensures At(RefsTo(size, chunks, hash, 0), o) == Listing(size, chunks, hash, 0, o)
  {
    assert RefsTo(size, chunks, hash, 0) == [];
    hide RefAt;
  }

  /** One more chunk, at offset `top`: its ref joins the list unless it is zero. */
  lemma AtNext(size: nat, chunks: seq<Bytes>, hash: Bytes -> Digest, n: nat, top: nat, o: nat)
    requires 0 < n <= |chunks| && top == (n - 1) * size
    ensures At(RefsTo(size, chunks, hash, n), o)
            == if o == top && !AllZero(chunks[n - 1]) then Some(hash(chunks[n - 1]))
               else At(RefsTo(size, chunks, hash, n - 1), o)
  {
    AtSnoc(RefsTo(size, chunks, hash, n - 1), ChunkRef(top, hash(chunks[n - 1])), o);
    hide At, AllZero;
  }

  lemma {:induction false} RefsToAt(size: nat, chunks: seq<Bytes>, hash: Bytes -> Digest, n: nat, o: nat)
    requires size > 0 && n <= |chunks|
    ensures At(RefsTo(size, chunks, hash, n), o) == Listing(size, chunks, hash, n, o)
  {
    hide At, RefsTo, Listing, AllZero;
    if n == 0 {
      ListingNone(size, chunks, hash, o);
    } else {
      var top := (n - 1) * size;
      ListingSnoc(size, chunks, hash, n, o);
      AtNext(size, chunks, hash, n, top, o);
      RefsToAt(size, chunks, hash, n - 1, o);
    }
  }

  // ---- The next manifest ----------------------------------------------------------------------

  /** What the ordered map lists for offset `o` once the chunks in `done` are rebuilt. */
  function Expected(size: nat, prev: seq<Bytes>, next: seq<Bytes>, hash: Bytes -> Digest, done: set<nat>,
                    o: nat): Option<Digest>
    requires size > 0
  {
    if o % size != 0 then None
    else RefAt(if o / size in done then next else prev, hash, o / size)
  }

  ghost predicate Tracks(size: nat, prev: seq<Bytes>, next: seq<Bytes>, hash: Bytes -> Digest, done: set<nat>,
                         tree: seq<ChunkRef>, bound: nat)
    requires size > 0
  {
    && StrictlySorted(tree) && (forall i | 0 <= i < |tree| :: tree[i].offset < bound)
    && forall o: nat :: At(tree, o) == Expected(size, prev, next, hash, done, o)
  }

  lemma StartTracks(size: nat, prev: seq<Bytes>, next: seq<Bytes>, hash: Bytes -> Digest)
    requires size > 0
    ensures Tracks(size, prev, next, hash, {}, RefsTo(size, prev, hash, |prev|), |prev| * size)
  {
    RefsToSorted(size, prev, hash, |prev|);
    forall o: nat { RefsToAt(size, prev, hash, |prev|, o); }
  }

  /** Putting the rebuilt chunk in, or taking it out if it became zero, tracks one more. */
  lemma RebuiltTracks(size: nat, prev: seq<Bytes>, next: seq<Bytes>, hash: Bytes -> Digest, done: set<nat>,
                      tree: seq<ChunkRef>, bound: nat, idx: nat)
    requires size > 0 && Tracks(size, prev, next, hash, done, tree, bound) && idx < |next| && idx * size < bound
    ensures var now := if AllZero(next[idx]) then TreeRemove(tree, idx * size)
                       else TreeInsert(tree, ChunkRef(idx * size, hash(next[idx])));
            Tracks(size, prev, next, hash, done + {idx}, now, bound)
  {
    var r := ChunkRef(idx * size, hash(next[idx]));
    if AllZero(next[idx]) {
      TreeRemoveSorted(tree, r.offset, bound);
    } else {
      TreeInsertSorted(tree, r, bound);
    }
    hide TreeInsert, TreeRemove;
    forall o: nat
      ensures At(if AllZero(next[idx]) then TreeRemove(tree, r.offset) else TreeInsert(tree, r), o)
              == Expected(size, prev, next, hash, done + {idx}, o)
    {
      MultipleIff(idx, size, o);
      TreeRemoveAt(tree, r.offset, o);
      TreeInsertAt(tree, r, o);
    }
  }

  lemma ExpectedDone(size: nat, prev: seq<Bytes>, next: seq<Bytes>, hash: Bytes -> Digest, done: set<nat>, o: nat)
    requires size > 0 && |prev| == |next| && forall i | 0 <= i < |prev| && i !in done :: prev[i] == next[i]
    ensures Expected(size, prev, next, hash, done, o) == Listing(size, next, hash, |next|, o)
  {
  }

  /** Once every chunk that changed is rebuilt, the list is the canonical one. */
  lemma DoneIsCanonical(size: nat, prev: seq<Bytes>, next: seq<Bytes>, hash: Bytes -> Digest, done: set<nat>,
                        tree: seq<ChunkRef>, bound: nat)
    requires size > 0 && Tracks(size, prev, next, hash, done, tree, bound) && |prev| == |next|
    requires forall i | 0 <= i < |prev| && i !in done :: prev[i] == next[i]
    ensures tree == RefsTo(size, next, hash, |next|)
  {
    hide RefsTo, At, Expected, Listing;
    RefsToSorted(size, next, hash, |next|);
    forall o: nat
      ensures At(tree, o) == At(RefsTo(size, next, hash, |next|), o)
    {
      ExpectedDone(size, prev, next, hash, done, o);
      RefsToAt(size, next, hash, |next|, o);
    }
    SameLookups(tree, RefsTo(size, next, hash, |next|));
  }

  lemma SeedIsPrev(view: map<Digest, Bytes>, hash: Bytes -> Digest, chunks: seq<Bytes>, idx: nat)
    requires idx < |chunks| && Honest(view, hash) && Injective(hash)
    ensures var h := RefAt(chunks, hash, idx);
            (h.Some? ==> h.value in view) ==> Seed(h, view, |chunks[idx]|) == chunks[idx]
  {
    var c := chunks[idx];
    if !AllZero(c) && hash(c) in view { assert hash(view[hash(c)]) == hash(c) && c[..|c|] == c; }
  }

  /** A rebuilt slice is the chunk of the new image. */
  lemma SliceIsNext(g: Grid, ranges: seq<Range>, diff: Bytes, prev: Bytes, next: Bytes, idx: nat, slice: Bytes)
    requires g.Valid() && |prev| == g.total && Written(ranges, diff, prev, next) && idx < g.Count() && g.Has(idx)
    requires |slice| == g.Len(idx) == |Cut(g, prev)[idx]|
    requires forall k | 0 <= k < |slice| ::
               slice[k] == ByteAfter(ranges, diff, idx * g.size + k, Cut(g, prev)[idx][k])
    ensures slice == Cut(g, next)[idx]
  {
    CutAt(g, prev, g.Count(), idx);
    CutAt(g, next, g.Count(), idx);
    forall k | 0 <= k < |slice|
      ensures slice[k] == Cut(g, next)[idx][k]
    {
      assert ChunkAt(g, prev, idx)[k] == prev[idx * g.size + k];
      assert ChunkAt(g, next, idx)[k] == next[idx * g.size + k];
    }
  }

  /** A chunk that no range touches has no dirty byte. */
  lemma Untouched(g: Grid, ranges: seq<Range>, idx: nat, k: nat)
    requires g.Valid() && idx < g.Count() && g.Has(idx) && k < g.Len(idx) && !Touched(g, ranges, idx)
    ensures !Dirty(ranges, idx * g.size + k)
  {
    var pos := idx * g.size + k;
    Place(g, idx, k);
    forall i | 0 <= i < |ranges|
      ensures !ranges[i].Has(pos)
    {
      assert !Touches(g, ranges[i], idx);
    }
  }

  /** A chunk that no range touches keeps its bytes. */
  lemma CleanChunk(g: Grid, ranges: seq<Range>, diff: Bytes, prev: Bytes, next: Bytes, idx: nat)
    requires g.Valid() && |prev| == g.total && Written(ranges, diff, prev, next)
    requires idx < g.Count() && !Touched(g, ranges, idx)
    ensures Cut(g, prev)[idx] == Cut(g, next)[idx]
  {
    CutAt(g, prev, g.Count(), idx);
    CutAt(g, next, g.Count(), idx);
    hide Touched, Dirty;
    forall k | 0 <= k < g.Len(idx)
      ensures ChunkAt(g, prev, idx)[k] == ChunkAt(g, next, idx)[k]
    {
      Untouched(g, ranges, idx, k);
    }
    assert ChunkAt(g, prev, idx) == ChunkAt(g, next, idx);
  }

  /** The previous capture and the change since: its manifest is canonical, and `next` is the
      image after the dirty bytes are written. */
  ghost predicate Sound(m: Manifest, prev: Bytes, next: Bytes, ranges: seq<Range>, diff: Bytes, hash: Bytes -> Digest) {
    && m.Grid().Valid() && |prev| == m.totalBytes && m == Canonical(m.kind, m.Grid(), prev, hash)
    && Injective(hash) && Written(ranges, diff, prev, next)
  }

  function Listed(refs: seq<ChunkRef>): set<Digest> {
    set i | 0 <= i < |refs| :: refs[i].hash
  }

  ghost predicate Extends(a: map<Digest, Bytes>, b: map<Digest, Bytes>) {
    forall h | h in a :: h in b && b[h] == a[h]
  }

  /** From honest content a rebuilt slice is the new image's chunk; it is missing only if the
      previous chunk cannot be read. */
  lemma RebuiltIsNext(m: Manifest, idx: nat, diff: Bytes, ranges: seq<Range>, hash: Bytes -> Digest,
                      view: map<Digest, Bytes>, prev: Bytes, next: Bytes, s: Slice)
    requires Sound(m, prev, next, ranges, diff, hash) && Honest(view, hash)
    requires idx < m.Grid().Count() && m.Grid().Has(idx)
    requires RebuiltFrom(m.Grid(), At(m.chunks, idx * m.chunkSize), idx, diff, ranges, view, s)
    ensures !s.DiffShort? && (s.Rebuilt? ==> s.bytes == Cut(m.Grid(), next)[idx])
    ensures At(m.chunks, idx * m.chunkSize) == RefAt(Cut(m.Grid(), prev), hash, idx)
  {
    var g := m.Grid();
    hide At, Cut, Canonical, Honest, Injective, Seed, RefAt;
    PrevIs(m, g, idx, hash, view, prev);
    NoShort(g, ranges, diff, prev, next, idx);
    hide Written, DiffCovers;
    if s.Rebuilt? {
      SameLen(g, prev, idx);
      SliceIsNext(g, ranges, diff, prev, next, idx, s.bytes);
    }
  }

  /** What `RebuildChunk` promises, for the chunk `idx`. */
  ghost predicate RebuiltFrom(g: Grid, prevHash: Option<Digest>, idx: nat, diff: Bytes, ranges: seq<Range>,
                              view: map<Digest, Bytes>, s: Slice)
    requires g.Valid() && g.Has(idx)
  {
    match s
    case Missing(h) => prevHash == Some(h) && h !in view
    case DiffShort =>
      exists pos | idx * g.size <= pos < idx * g.size + g.Len(idx) :: Dirty(ranges, pos) && pos >= |diff|
    case Rebuilt(bytes) =>
      && (prevHash.Some? ==> prevHash.value in view) && |bytes| == g.Len(idx)
      && forall k | 0 <= k < g.Len(idx) ::
           bytes[k] == ByteAfter(ranges, diff, idx * g.size + k, Seed(prevHash, view, g.Len(idx))[k])
  }

  lemma SameLen(g: Grid, image: Bytes, idx: nat)
    requires g.Valid() && |image| == g.total && idx < g.Count() && g.Has(idx)
    ensures |Cut(g, image)[idx]| == g.Len(idx)
  {
    CutAt(g, image, g.Count(), idx);
  }

  /** No dirty byte of a chunk of the image is past the diff. */
  lemma NoShort(g: Grid, ranges: seq<Range>, diff: Bytes, prev: Bytes, next: Bytes, idx: nat)
    requires g.Valid() && |prev| == g.total && Written(ranges, diff, prev, next) && g.Has(idx)
    ensures !exists pos | idx * g.size <= pos < idx * g.size + g.Len(idx) :: Dirty(ranges, pos) && pos >= |diff|
  {
    hide Dirty;
  }

  /** What the previous manifest lists for a chunk, and what reading it gives. */
  lemma PrevIs(m: Manifest, g: Grid, idx: nat, hash: Bytes -> Digest, view: map<Digest, Bytes>, prev: Bytes)
    requires g.Valid() && |prev| == g.total && m == Canonical(m.kind, g, prev, hash)
    requires Honest(view, hash) && Injective(hash) && idx < g.Count() && g.Has(idx)
    ensures var prevHash := At(m.chunks, idx * g.size);
            && prevHash == RefAt(Cut(g, prev), hash, idx)
            && ((prevHash.Some? ==> prevHash.value in view) ==> Seed(prevHash, view, g.Len(idx)) == Cut(g, prev)[idx])
  {
    var chunks := Cut(g, prev);
    RefsToAt(g.size, chunks, hash, g.Count(), idx * g.size);
    MultipleIff(idx, g.size, idx * g.size);
    CutAt(g, prev, g.Count(), idx);
    hide At, Cut;
    SeedIsPrev(view, hash, chunks, idx);
  }
}
