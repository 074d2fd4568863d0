/** The synchronous receiving end of a streaming image producer: byte runs arrive in any
    order and fragmentation, and each chunk is sent on the moment its byte count is full. */
module Regions {
  import opened Bytes
  import opened Coverage
  import opened Chunking
  import opened Wrappers

  const PARTIAL_BUFFER_CAP: nat := 2 * 1024 * 1024 * 1024

  /** A partially covered chunk: data fragments are kept, zero runs only counted. */
  datatype Partial = Partial(covered: nat, frags: seq<Frag>)

  /** A finalized chunk on its way to the uploader; a zero chunk carries no body. */
  datatype Completed = Data(offset: nat, body: Bytes) | Zero

  datatype CoverError = OutOfRange | OverCovered(idx: nat) | BufferCapExceeded | UploaderGone

  datatype Outcome = Done | Failed(error: CoverError)

  datatype FinishResult = HighWater(bytes: nat) | UnderCovered(covered: nat, total: nat, partials: nat)

  // ---- What a history of pieces means ------------------------------------------

  function Covered(hist: seq<Piece>, idx: nat): nat { SumLen(Of(hist, idx)) }

  function Stored(hist: seq<Piece>, idx: nat): nat { SumLen(NonZero(Of(hist, idx))) }

  /** Bytes buffered for the chunks below `n` that are not complete yet. */
  function BufferedOf(lens: seq<nat>, hist: seq<Piece>, n: nat): (b: nat)
    requires n <= |lens|
  {
    if n == 0 then 0
    else BufferedOf(lens, hist, n - 1) + if Covered(hist, n - 1) < lens[n - 1] then Stored(hist, n - 1) else 0
  }

  /** The message chunk `idx` is sent as once it is complete. */
  function Message(size: nat, lens: seq<nat>, hist: seq<Piece>, idx: nat): (m: Completed)
    requires AllFit(lens, hist) && idx < |lens|
  {
    OfWithin(lens, hist, idx);
    NonZeroWithin(Of(hist, idx), lens[idx]);
    var frags := NonZero(Of(hist, idx));
    if frags == [] then Zero else Data(idx * size, Assemble(lens[idx], frags))
  }

  /** Why the next piece is turned down, if it is. `accepts(idx)` says whether the
      uploader still takes the message of chunk `idx`. */
  function PieceOutcome(lens: seq<nat>, hist: seq<Piece>, p: Piece, accepts: nat -> bool): (r: Outcome)
    requires Fits(lens, p)
  {
    var n := |p.frag.bytes|;
    if Covered(hist, p.idx) + n > lens[p.idx] then Failed(OverCovered(p.idx))
    else if !AllZero(p.frag.bytes) && BufferedOf(lens, hist, |lens|) + n > PARTIAL_BUFFER_CAP then
      Failed(BufferCapExceeded)
    else if Covered(hist, p.idx) + n == lens[p.idx] && !accepts(p.idx) then Failed(UploaderGone)
    else Done
  }

  /** The outcome of a list of pieces: the first failure, if any. */
  function PiecesOutcome(lens: seq<nat>, hist: seq<Piece>, ps: seq<Piece>, accepts: nat -> bool): (r: Outcome)
    requires AllFit(lens, ps)
    ensures r != Failed(OutOfRange)
    decreases |ps|
  {
    if |ps| == 0 then Done
    else match PieceOutcome(lens, hist, ps[0], accepts)
         case Failed(e) => Failed(e)
         case Done => PiecesOutcome(lens, hist + [ps[0]], ps[1..], accepts)
  }

  // ---- Sums over the chunk table ------------------------------------------------

  function StoredAt(partials: map<nat, Partial>, idx: nat): nat {
    if idx in partials then SumLen(partials[idx].frags) else 0
  }

  function StoredBytes(partials: map<nat, Partial>, n: nat): nat {
    if n == 0 then 0 else StoredBytes(partials, n - 1) + StoredAt(partials, n - 1)
  }

  function CoveredAt(lens: seq<nat>, partials: map<nat, Partial>, emitted: set<nat>, idx: nat): nat {
    if idx in partials then partials[idx].covered
    else if idx in emitted && idx < |lens| then lens[idx] else 0
  }

  function CoveredBytes(lens: seq<nat>, partials: map<nat, Partial>, emitted: set<nat>, n: nat): nat {
    if n == 0 then 0 else CoveredBytes(lens, partials, emitted, n - 1) + CoveredAt(lens, partials, emitted, n - 1)
  }

  lemma {:induction false} StoredChange(a: map<nat, Partial>, b: map<nat, Partial>, idx: nat, n: nat)
    requires forall i | i != idx :: StoredAt(a, i) == StoredAt(b, i)
    ensures StoredBytes(b, n) == StoredBytes(a, n) + if idx < n then StoredAt(b, idx) - StoredAt(a, idx) else 0
  {
    if n > 0 { StoredChange(a, b, idx, n - 1); }
  }

  lemma {:induction false} CoveredChange(lens: seq<nat>, a: map<nat, Partial>, ea: set<nat>, b: map<nat, Partial>,
                                         eb: set<nat>, idx: nat, n: nat)
    requires forall i | i != idx :: CoveredAt(lens, a, ea, i) == CoveredAt(lens, b, eb, i)
    ensures CoveredBytes(lens, b, eb, n)
            == CoveredBytes(lens, a, ea, n)
               + if idx < n then CoveredAt(lens, b, eb, idx) - CoveredAt(lens, a, ea, idx) else 0
  {
    if n > 0 { CoveredChange(lens, a, ea, b, eb, idx, n - 1); }
  }

  lemma {:induction false} StoredPositive(partials: map<nat, Partial>, idx: nat, n: nat)
    requires idx < n
    ensures StoredAt(partials, idx) <= StoredBytes(partials, n)
  {
    if idx < n - 1 { StoredPositive(partials, idx, n - 1); }
  }

  // ---- The chunk table tracks the history ----------------------------------------

  ghost predicate Tracks(lens: seq<nat>, partials: map<nat, Partial>, emitted: set<nat>, hist: seq<Piece>) {
    AllFit(lens, hist) && forall idx: nat :: TracksIdx(lens, partials, emitted, hist, idx)
  }

  ghost predicate TracksIdx(lens: seq<nat>, partials: map<nat, Partial>, emitted: set<nat>, hist: seq<Piece>,
                            idx: nat)
  {
    TracksAt(lens, partials, emitted, idx, Of(hist, idx))
  }

  /** What the table holds for a chunk with fragments `fs`: nothing before the first byte,
      a partial while the count is short, and only the emitted mark once it is full. */
  ghost predicate TracksAt(lens: seq<nat>, partials: map<nat, Partial>, emitted: set<nat>, idx: nat, fs: seq<Frag>) {
    && (idx in partials ==>
          && idx !in emitted && idx < |lens| && 0 < SumLen(fs) < lens[idx]
          && partials[idx] == Partial(SumLen(fs), NonZero(fs)))
    && (idx in emitted ==> idx < |lens| && SumLen(fs) == lens[idx] > 0)
    && (idx !in partials && idx !in emitted ==> fs == [])
  }

  /** `sent` holds the message of each emitted chunk once, in the order `order`. */
  ghost predicate SentInOrder(size: nat, lens: seq<nat>, sent: seq<Completed>, order: seq<nat>, emitted: set<nat>,
                              hist: seq<Piece>)
    requires AllFit(lens, hist)
  {
    && |sent| == |order|
    && (forall k | 0 <= k < |order| :: SentAt(size, lens, sent[k], order[k], hist))
    && Distinct(order)
    && (forall idx: nat :: InBoth(emitted, order, idx))
  }

  ghost predicate SentAt(size: nat, lens: seq<nat>, m: Completed, idx: nat, hist: seq<Piece>)
    requires AllFit(lens, hist)
  {
    idx < |lens| && m == Message(size, lens, hist, idx)
  }

  ghost predicate InBoth(emitted: set<nat>, order: seq<nat>, idx: nat) {
    idx in emitted <==> idx in order
  }

  ghost predicate Distinct(order: seq<nat>) {
    forall j, k | 0 <= j < k < |order| :: order[j] != order[k]
  }

  lemma {:induction false} BufferedIsStored(lens: seq<nat>, partials: map<nat, Partial>, emitted: set<nat>,
                                            hist: seq<Piece>, n: nat)
    requires Tracks(lens, partials, emitted, hist) && n <= |lens|
    ensures BufferedOf(lens, hist, n) == StoredBytes(partials, n)
  {
    if n > 0 {
      BufferedIsStored(lens, partials, emitted, hist, n - 1);
      assert TracksIdx(lens, partials, emitted, hist, n - 1);
    }
  }

  function Slot(partials: map<nat, Partial>, idx: nat): Partial {
    if idx in partials then partials[idx] else Partial(0, [])
  }

  function WithoutEntry(partials: map<nat, Partial>, idx: nat): (m: map<nat, Partial>)
    ensures forall i :: i in m <==> i in partials && i != idx
    ensures forall i | i in m :: m[i] == partials[i]
  {
    map i | i in partials && i != idx :: partials[i]
  }

  function Grow(was: Partial, f: Frag): Partial {
    Partial(was.covered + |f.bytes|, if AllZero(f.bytes) then was.frags else was.frags + [f])
  }

  lemma SumLenSnoc(fs: seq<Frag>, f: Frag)
    ensures SumLen(fs + [f]) == SumLen(fs) + |f.bytes|
  {
    assert (fs + [f])[..|fs|] == fs;
  }

  lemma SlotIs(lens: seq<nat>, partials: map<nat, Partial>, emitted: set<nat>, idx: nat, fs: seq<Frag>)
    requires TracksAt(lens, partials, emitted, idx, fs) && idx < |lens| && SumLen(fs) < lens[idx]
    ensures idx !in emitted && Slot(partials, idx) == Partial(SumLen(fs), NonZero(fs))
  {
    assert SumLen([]) == 0 && NonZero([]) == [];
    hide SumLen, NonZero;
  }

  lemma GrowIs(fs: seq<Frag>, f: Frag)
    ensures var entry := Grow(Partial(SumLen(fs), NonZero(fs)), f);
            && entry == Partial(SumLen(fs + [f]), NonZero(fs + [f]))
            && SumLen(entry.frags) == SumLen(NonZero(fs)) + (if AllZero(f.bytes) then 0 else |f.bytes|)
  {
    SumLenSnoc(fs, f);
    SumLenSnoc(NonZero(fs), f);
    NonZeroSnoc(fs, f);
    hide AllZero, SumLen, NonZero;
  }

  /** The table entry a piece grows still tracks its chunk, and leaves the table when full. */
  lemma GrowTracks(lens: seq<nat>, partials: map<nat, Partial>, emitted: set<nat>, idx: nat, fs: seq<Frag>, f: Frag)
    requires TracksAt(lens, partials, emitted, idx, fs)
    requires idx < |lens| && 0 < |f.bytes| && SumLen(fs) + |f.bytes| <= lens[idx]
    ensures idx !in emitted && Slot(partials, idx) == Partial(SumLen(fs), NonZero(fs))
    ensures var entry := Grow(Slot(partials, idx), f);
            && entry == Partial(SumLen(fs + [f]), NonZero(fs + [f]))
            && SumLen(entry.frags) == SumLen(NonZero(fs)) + (if AllZero(f.bytes) then 0 else |f.bytes|)
            && (entry.covered == lens[idx] ==>
                  TracksAt(lens, WithoutEntry(partials, idx), emitted + {idx}, idx, fs + [f]))
            && (entry.covered < lens[idx] ==> TracksAt(lens, partials[idx := entry], emitted, idx, fs + [f]))
  {
    hide AllZero, SumLen, NonZero, Slot, Grow;
    SlotIs(lens, partials, emitted, idx, fs);
    GrowIs(fs, f);
    SumLenSnoc(fs, f);
  }

  lemma NonZeroSnoc(fs: seq<Frag>, f: Frag)
    ensures NonZero(fs + [f]) == if AllZero(f.bytes) then NonZero(fs) else NonZero(fs) + [f]
  {
    assert (fs + [f])[..|fs|] == fs;
  }

  lemma TracksOthers(lens: seq<nat>, pa: map<nat, Partial>, ea: set<nat>, pb: map<nat, Partial>, eb: set<nat>,
                     hist: seq<Piece>, p: Piece)
    requires Tracks(lens, pa, ea, hist) && Fits(lens, p)
    requires forall i: nat | i != p.idx :: (i in pa <==> i in pb) && (i in ea <==> i in eb)
    requires forall i: nat | i != p.idx && i in pa :: pa[i] == pb[i]
    requires TracksAt(lens, pb, eb, p.idx, Of(hist, p.idx) + [p.frag])
    ensures Tracks(lens, pb, eb, hist + [p])
  {
    assert AllFit(lens, hist + [p]);
    forall i: nat
      ensures TracksIdx(lens, pb, eb, hist + [p], i)
    {
      OfSnoc(hist, p, i);
      assert TracksIdx(lens, pa, ea, hist, i);
    }
  }

  /** One more piece that leaves its chunk short: only its table entry moves on. */
  lemma PartialStep(lens: seq<nat>, partials: map<nat, Partial>, emitted: set<nat>, hist: seq<Piece>, p: Piece)
    requires Tracks(lens, partials, emitted, hist) && Fits(lens, p)
    requires Covered(hist, p.idx) + |p.frag.bytes| < lens[p.idx]
    ensures var next := partials[p.idx := Grow(Slot(partials, p.idx), p.frag)];
            && Tracks(lens, next, emitted, hist + [p])
            && StoredBytes(next, |lens|)
               == StoredBytes(partials, |lens|) + (if AllZero(p.frag.bytes) then 0 else |p.frag.bytes|)
            && CoveredBytes(lens, next, emitted, |lens|)
               == CoveredBytes(lens, partials, emitted, |lens|) + |p.frag.bytes|
  {
    hide TracksIdx, Of, NonZero, StoredBytes, CoveredBytes, AllFit;
    var next := partials[p.idx := Grow(Slot(partials, p.idx), p.frag)];
    EntryTracks(lens, partials, emitted, hist, p);
    assert Tracks(lens, next, emitted, hist + [p]) by {
      TracksOthers(lens, partials, emitted, next, emitted, hist, p);
    }
    StoredChange(partials, next, p.idx, |lens|);
    CoveredChange(lens, partials, emitted, next, emitted, p.idx, |lens|);
  }

  /** The piece that fills its chunk: the entry leaves the table for the emitted set. */
  lemma FullStep(lens: seq<nat>, partials: map<nat, Partial>, emitted: set<nat>, hist: seq<Piece>, p: Piece)
    requires Tracks(lens, partials, emitted, hist) && Fits(lens, p)
    requires Covered(hist, p.idx) + |p.frag.bytes| == lens[p.idx]
    ensures Tracks(lens, WithoutEntry(partials, p.idx), emitted + {p.idx}, hist + [p])
  {
    EntryTracks(lens, partials, emitted, hist, p);
    TracksOthers(lens, partials, emitted, WithoutEntry(partials, p.idx), emitted + {p.idx}, hist, p);
  }

  lemma FullSums(lens: seq<nat>, partials: map<nat, Partial>, emitted: set<nat>, hist: seq<Piece>, p: Piece)
    requires Tracks(lens, partials, emitted, hist) && Fits(lens, p)
    requires Covered(hist, p.idx) + |p.frag.bytes| == lens[p.idx]
    ensures StoredBytes(WithoutEntry(partials, p.idx), |lens|)
            == StoredBytes(partials, |lens|) - StoredAt(partials, p.idx)
    ensures CoveredBytes(lens, WithoutEntry(partials, p.idx), emitted + {p.idx}, |lens|)
            == CoveredBytes(lens, partials, emitted, |lens|) + |p.frag.bytes|
  {
    var next := WithoutEntry(partials, p.idx);
    assert TracksIdx(lens, partials, emitted, hist, p.idx);
    StoredChange(partials, next, p.idx, |lens|);
    CoveredChange(lens, partials, emitted, next, emitted + {p.idx}, p.idx, |lens|);
  }

  lemma EntryTracks(lens: seq<nat>, partials: map<nat, Partial>, emitted: set<nat>, hist: seq<Piece>, p: Piece)
    requires Tracks(lens, partials, emitted, hist) && Fits(lens, p)
    requires Covered(hist, p.idx) + |p.frag.bytes| <= lens[p.idx]
    ensures p.idx !in emitted
    ensures var entry := Grow(Slot(partials, p.idx), p.frag);
            var fs := Of(hist, p.idx) + [p.frag];
            && entry.covered == Covered(hist, p.idx) + |p.frag.bytes|
            && Slot(partials, p.idx).covered == Covered(hist, p.idx)
            && SumLen(entry.frags) == StoredAt(partials, p.idx) + (if AllZero(p.frag.bytes) then 0 else |p.frag.bytes|)
            && (entry.covered == lens[p.idx] ==>
                  TracksAt(lens, WithoutEntry(partials, p.idx), emitted + {p.idx}, p.idx, fs))
            && (entry.covered < lens[p.idx] ==> TracksAt(lens, partials[p.idx := entry], emitted, p.idx, fs))
  {
    assert TracksIdx(lens, partials, emitted, hist, p.idx);
    GrowTracks(lens, partials, emitted, p.idx, Of(hist, p.idx), p.frag);
    SumLenSnoc(Of(hist, p.idx), p.frag);
  }

  /** The entry a piece grows: its count, its fragments and their bytes. */
  lemma EntryIsHist(lens: seq<nat>, partials: map<nat, Partial>, emitted: set<nat>, hist: seq<Piece>, p: Piece)
    requires Tracks(lens, partials, emitted, hist) && Fits(lens, p)
    ensures p.idx in emitted <==> Covered(hist, p.idx) == lens[p.idx]
    ensures p.idx !in emitted ==> Slot(partials, p.idx).covered == Covered(hist, p.idx)
    ensures p.idx !in emitted && Covered(hist, p.idx) + |p.frag.bytes| <= lens[p.idx] ==>
              var entry := Grow(Slot(partials, p.idx), p.frag);
              && entry.frags == NonZero(Of(hist + [p], p.idx))
              && SumLen(entry.frags)
                 == StoredAt(partials, p.idx) + (if AllZero(p.frag.bytes) then 0 else |p.frag.bytes|)
              && StoredAt(partials, p.idx) <= StoredBytes(partials, |lens|)
  {
    assert TracksIdx(lens, partials, emitted, hist, p.idx);
    if p.idx !in emitted && Covered(hist, p.idx) + |p.frag.bytes| <= lens[p.idx] {
      GrowTracks(lens, partials, emitted, p.idx, Of(hist, p.idx), p.frag);
      OfSnoc(hist, p, p.idx);
      StoredPositive(partials, p.idx, |lens|);
      hide Of, NonZero, SumLen, StoredBytes;
    }
  }

  lemma SentSame(size: nat, lens: seq<nat>, sent: seq<Completed>, order: seq<nat>, emitted: set<nat>,
                 hist: seq<Piece>, p: Piece)
    requires AllFit(lens, hist) && Fits(lens, p) && p.idx !in emitted
    requires SentInOrder(size, lens, sent, order, emitted, hist)
    ensures AllFit(lens, hist + [p]) && SentInOrder(size, lens, sent, order, emitted, hist + [p])
  {
    assert AllFit(lens, hist + [p]);
    forall k | 0 <= k < |order|
      ensures SentAt(size, lens, sent[k], order[k], hist + [p])
    {
      assert SentAt(size, lens, sent[k], order[k], hist);
      assert InBoth(emitted, order, order[k]);
      OfSnoc(hist, p, order[k]);
    }
  }

  /** Where a position lies in its chunk, and how far the run reaches in it. */
  lemma SpanIs(g: Grid, pos: nat, end: nat, idx: nat, start: nat)
    requires g.Valid() && pos < end <= g.total && idx == pos / g.size && start == idx * g.size
    ensures && idx < |Lens(g)| && start <= pos && pos - start == pos % g.size && start < g.total
            && Lens(g)[idx] == (if g.size <= g.total - start then g.size else g.total - start)
            && Take(g, pos, end - pos) == (if start + Lens(g)[idx] <= end then start + Lens(g)[idx] else end) - pos
  {
    Chunking.Locate(g, pos);
    LensAt(g, g.Count(), pos / g.size);
    hide Lens;
  }

  lemma EmptySum()
    ensures SumLen([]) == 0
  {
  }

  /** The message of one more emitted chunk. */
  lemma SentSnoc(size: nat, lens: seq<nat>, sent: seq<Completed>, order: seq<nat>, before: set<nat>, hist: seq<Piece>,
                 msg: Completed, idx: nat)
    requires AllFit(lens, hist) && idx < |lens| && idx !in before
    requires SentInOrder(size, lens, sent, order, before, hist) && SentAt(size, lens, msg, idx, hist)
    ensures SentInOrder(size, lens, sent + [msg], order + [idx], before + {idx}, hist)
  {
    hide SentAt;
    assert InBoth(before, order, idx);
    forall i: nat
      ensures InBoth(before + {idx}, order + [idx], i)
    {
      assert InBoth(before, order, i);
    }
  }

  // ---- The chunker ---------------------------------------------------------------

  class RegionChunker {
    const grid: Grid
    const accepts: nat -> bool
    var partials: map<nat, Partial>
    var emitted: set<nat>
    var buffered: nat
    var highWater: nat
    var coveredTotal: nat
    var sent: seq<Completed>
    ghost const lens: seq<nat>
    ghost var hist: seq<Piece>
    ghost var order: seq<nat>
    ghost var levels: set<nat>

    /** `pending` bytes of the call in progress are counted but not yet placed. */
    ghost predicate Consistent(pending: nat)
      reads this
    {
      && Tracks(lens, partials, emitted, hist)
      && buffered == StoredBytes(partials, |lens|)
      && coveredTotal == CoveredBytes(lens, partials, emitted, |lens|) + pending
      && SentInOrder(grid.size, lens, sent, order, emitted, hist)
      && buffered <= highWater && highWater in levels && (forall v | v in levels :: v <= highWater)
    }

    ghost predicate Valid()
      reads this
    {
      grid.Valid() && lens == Lens(grid) && Consistent(0)
    }

    constructor (chunkSize: nat, totalBytes: nat, accepts: nat -> bool)
      requires chunkSize > 0
      ensures Valid() && hist == [] && sent == [] && levels == {0}
      ensures grid == Grid(chunkSize, totalBytes) && this.accepts == accepts
    {
      grid := Grid(chunkSize, totalBytes);
      this.accepts := accepts;
      partials, emitted, buffered, highWater, coveredTotal, sent := map[], {}, 0, 0, 0, [];
      hist, order, levels := [], [], {0};
      lens := Lens(Grid(chunkSize, totalBytes));
      new;
      EmptyTable(lens, |lens|);
    }

    /** Real bytes at `offset`. */
    method Data(offset: nat, bytes: Bytes) returns (r: Outcome)
      requires Valid()
      modifies this
      ensures r == CallOutcome(grid, old(hist), offset, bytes, accepts)
      ensures r.Done? ==> Valid() && hist == old(hist) + Split(grid, offset, bytes)
    {
      r := Cover(offset, |bytes|, Some(bytes), bytes);
    }

    /** A zero run at `offset`. */
    method ZeroRun(offset: nat, len: nat) returns (r: Outcome)
      requires Valid()
      modifies this
      ensures r == CallOutcome(grid, old(hist), offset, Zeros(len), accepts)
      ensures r.Done? ==> Valid() && hist == old(hist) + Split(grid, offset, Zeros(len))
    {
      r := Cover(offset, len, None, Zeros(len));
    }

    method Cover(offset: nat, len: nat, bytes: Option<Bytes>, ghost data: Bytes) returns (r: Outcome)
      requires Valid()
      requires |data| == len && data == match bytes { case Some(b) => b case None => Zeros(len) }
      modifies this
      ensures r == CallOutcome(grid, old(hist), offset, data, accepts)
      ensures r.Done? ==> Valid() && hist == old(hist) + Split(grid, offset, data)
      ensures r == Failed(OutOfRange) ==> Valid() && hist == old(hist) && sent == old(sent)
    {
      if len == 0 {
        return Done;
      }
      if offset + len > grid.total {
        return Failed(OutOfRange);
      }
      var end := offset + len;
      coveredTotal := coveredTotal + len;
      SplitFits(grid, offset, data);
      r := CoverRun(offset, end, bytes, data);
    }

    method CoverRun(offset: nat, end: nat, bytes: Option<Bytes>, ghost data: Bytes) returns (r: Outcome)
      requires offset < end <= grid.total && grid.Valid() && lens == Lens(grid) && Consistent(end - offset)
      requires |data| == end - offset && AllFit(lens, Split(grid, offset, data))
      requires data == match bytes { case Some(b) => b case None => Zeros(end - offset) }
      modifies this
      ensures r == PiecesOutcome(lens, old(hist), Split(grid, offset, data), accepts)
      ensures r.Done? ==> Consistent(0) && hist == old(hist) + Split(grid, offset, data)
    {
      hide Consistent, Lens, Take, PieceOutcome, Split;
      ghost var all := Split(grid, offset, data);
      ghost var todo := all;
      var pos := offset;
      assert data == data[0..];
      while pos < end
        invariant offset <= pos <= end
        invariant Consistent(end - pos)
        invariant todo == Split(grid, pos, data[pos - offset..])
        invariant AllFit(lens, todo)
        invariant hist + todo == old(hist) + all
        invariant PiecesOutcome(lens, hist, todo, accepts) == PiecesOutcome(lens, old(hist), all, accepts)
      {
        var idx, off, chunkLen, take := NextSpan(pos, end);
        NextPiece(grid, offset, data, pos, take);
        ghost var p := todo[0];
        var frag := match bytes { case Some(b) => Some(b[pos - offset..pos - offset + take]) case None => None };
        r := CoverPiece(idx, off, take, chunkLen, frag, p, end - pos - take);
        if r.Failed? {
          return;
        }
        assert old(hist) + all == hist + todo[1..];
        todo := todo[1..];
        pos := pos + take;
      }
      assert data[pos - offset..] == [];
      SplitNothing(grid, pos);
      assert hist + todo == hist;
      r := Done;
    }

    /** The chunk at `pos`, the offset of `pos` in it, its length, and how far the run
        reaches into it. */
    method NextSpan(pos: nat, end: nat) returns (idx: nat, off: nat, chunkLen: nat, take: nat)
      requires grid.Valid() && lens == Lens(grid) && pos < end <= grid.total
      ensures idx == pos / grid.size && off == pos % grid.size && idx < |lens| && chunkLen == lens[idx]
      ensures take == Take(grid, pos, end - pos)
    {
      hide Lens, Take;
      idx := pos / grid.size;
      var chunkStart := idx * grid.size;
      SpanIs(grid, pos, end, idx, chunkStart);
      off := pos - chunkStart;
      chunkLen := if grid.size <= grid.total - chunkStart then grid.size else grid.total - chunkStart;
      take := (if chunkStart + chunkLen <= end then chunkStart + chunkLen else end) - pos;
    }

    method CoverPiece(idx: nat, off: nat, take: nat, chunkLen: nat, frag: Option<Bytes>, ghost p: Piece,
                      ghost pending: nat)
      returns (r: Outcome)
      requires Consistent(pending + take)
      requires Fits(lens, p) && p.idx == idx && p.frag.off == off && |p.frag.bytes| == take && chunkLen == lens[idx]
      requires match frag { case Some(b) => p.frag.bytes == b case None => AllZero(p.frag.bytes) }
      modifies this
      ensures r == PieceOutcome(lens, old(hist), p, accepts)
      ensures r.Done? ==> Consistent(pending) && hist == old(hist) + [p]
    {
      hide Of, NonZero, SumLen, StoredBytes, CoveredBytes, TracksIdx, SentInOrder, WithoutEntry, AllFit, BufferedOf;
      BufferedIsStored(lens, partials, emitted, hist, |lens|);
      EntryIsHist(lens, partials, emitted, hist, p);
      if idx in emitted {
        return Failed(OverCovered(idx));
      }
      var entry := Slot(partials, idx);
      entry := entry.(covered := entry.covered + take);
      if entry.covered > chunkLen {
        partials := WithoutEntry(partials, idx);
        return Failed(OverCovered(idx));
      }
      if frag.Some? && !AllZero(frag.value) {
        entry := entry.(frags := entry.frags + [Frag(off, frag.value)]);
        buffered := buffered + take;
        highWater := if highWater < buffered then buffered else highWater;
        levels := levels + {buffered};
        if buffered > PARTIAL_BUFFER_CAP {
          partials := partials[idx := entry];
          return Failed(BufferCapExceeded);
        }
      }
      r := Settle(idx, chunkLen, entry, p, pending);
    }

    /** Puts the grown entry back, or emits its chunk if the count is full. */
    method Settle(idx: nat, chunkLen: nat, entry: Partial, ghost p: Piece, ghost pending: nat) returns (r: Outcome)
      requires Tracks(lens, partials, emitted, hist) && SentInOrder(grid.size, lens, sent, order, emitted, hist)
      requires Fits(lens, p) && p.idx == idx && chunkLen == lens[idx]
      requires Covered(hist, idx) + |p.frag.bytes| <= chunkLen && entry == Grow(Slot(partials, idx), p.frag)
      requires buffered == StoredBytes(partials, |lens|) + (if AllZero(p.frag.bytes) then 0 else |p.frag.bytes|)
      requires coveredTotal == CoveredBytes(lens, partials, emitted, |lens|) + pending + |p.frag.bytes|
      requires buffered <= highWater && highWater in levels && forall v | v in levels :: v <= highWater
      modifies this`partials, this`emitted, this`buffered, this`sent, this`order, this`hist
      ensures hist == old(hist) + [p]
      ensures r == if Covered(old(hist), idx) + |p.frag.bytes| == chunkLen && !accepts(idx) then Failed(UploaderGone)
                   else Done
      ensures r.Done? ==> Consistent(pending)
    {
      hide Of, NonZero, SumLen, StoredBytes, CoveredBytes, TracksIdx, SentInOrder, WithoutEntry, AllFit, AllZero;
      EntryIsHist(lens, partials, emitted, hist, p);
      SentSame(grid.size, lens, sent, order, emitted, hist, p);
      hist := hist + [p];
      if entry.covered == chunkLen {
        FullStep(lens, partials, emitted, old(hist), p);
        FullSums(lens, partials, emitted, old(hist), p);
        partials := WithoutEntry(partials, idx);
        emitted := emitted + {idx};
        r := Emit(idx, chunkLen, entry, old(emitted));
      } else {
        PartialStep(lens, partials, emitted, old(hist), p);
        partials := partials[idx := entry];
        r := Done;
      }
    }

    /** Builds and sends the message of a complete chunk. */
    method Emit(idx: nat, chunkLen: nat, p: Partial, ghost before: set<nat>) returns (r: Outcome)
      requires AllFit(lens, hist) && idx < |lens| && chunkLen == lens[idx]
      requires emitted == before + {idx} && p.frags == NonZero(Of(hist, idx)) && SumLen(p.frags) <= buffered
      requires idx !in before && SentInOrder(grid.size, lens, sent, order, before, hist)
      modifies this`buffered, this`sent, this`order
      ensures buffered == old(buffered) - SumLen(p.frags)
      ensures r == if accepts(idx) then Done else Failed(UploaderGone)
      ensures r.Done? ==> SentInOrder(grid.size, lens, sent, order, emitted, hist)
    {
      hide SentInOrder, Of, NonZero, SumLen, AllFit, Assemble;
      var msg: Completed := Zero;
      OfWithin(lens, hist, idx);
      NonZeroWithin(Of(hist, idx), chunkLen);
      EmptySum();
      if |p.frags| > 0 {
        var body, fragBytes := FillBody(chunkLen, p.frags);
        buffered := buffered - fragBytes;
        msg := Completed.Data(idx * grid.size, body);
      }
      if !accepts(idx) {
        return Failed(UploaderGone);
      }
      assert SentAt(grid.size, lens, msg, idx, hist);
      SentSnoc(grid.size, lens, sent, order, before, hist, msg, idx);
      sent := sent + [msg];
      order := order + [idx];
      r := Done;
    }

    /** Producer done: the high-water mark, or the under-coverage error. */
    method Finish() returns (r: FinishResult)
      requires Valid()
      ensures r.HighWater? <==> forall idx | 0 <= idx < |lens| :: Covered(hist, idx) == lens[idx]
      ensures r.HighWater? ==> r.bytes in levels && forall v | v in levels :: v <= r.bytes
      ensures r.HighWater? ==>
                buffered == 0 && |sent| == |lens| && forall idx | 0 <= idx < |lens| :: idx in order
    {
      FinishIff(grid, lens, partials, emitted, hist);
      if coveredTotal != grid.total || |partials| != 0 {
        return UnderCovered(coveredTotal, grid.total, |partials|);
      }
      r := HighWater(highWater);
      assert partials == map[];
      NothingStored(|lens|);
      forall idx: nat | idx < |lens|
        ensures idx in order
      {
        assert InBoth(emitted, order, idx);
      }
      forall k | 0 <= k < |order|
        ensures order[k] < |lens|
      {
        assert SentAt(grid.size, lens, sent[k], order[k], hist);
      }
      DistinctCount(order, |lens|);
    }
  }

  /** Copies one fragment into place. */
  method CopyIn(buf: array<byte>, f: Frag)
    requires f.End() <= buf.Length
    modifies buf
    ensures buf[..] == Patch(old(buf[..]), f)
  {
    forall k | 0 <= k < |f.bytes| {
      buf[f.off + k] := f.bytes[k];
    }
  }

  /** Fills a zeroed buffer in place from the fragments; also counts their bytes. */
  method FillBody(n: nat, frags: seq<Frag>) returns (body: Bytes, fragBytes: nat)
    requires Within(frags, n)
    ensures body == Assemble(n, frags)
    ensures fragBytes == SumLen(frags)
  {
    var buf := new byte[n](_ => 0);
    fragBytes := 0;
    assert frags[..0] == [] && buf[..] == Zeros(n);
    for i := 0 to |frags|
      invariant buf[..] == Assemble(n, frags[..i])
      invariant fragBytes == SumLen(frags[..i])
    {
      hide Patch;
      assert frags[..i + 1][..i] == frags[..i];
      fragBytes := fragBytes + |frags[i].bytes|;
      CopyIn(buf, frags[i]);
    }
    assert frags[..|frags|] == frags;
    body := buf[..];
  }

  /** The outcome of one producer call. */
  function CallOutcome(g: Grid, hist: seq<Piece>, offset: nat, data: Bytes, accepts: nat -> bool): (r: Outcome)
    requires g.Valid()
  {
    if |data| == 0 then Done
    else if offset + |data| > g.total then Failed(OutOfRange)
    else
      SplitFits(g, offset, data);
      PiecesOutcome(Lens(g), hist, Split(g, offset, data), accepts)
  }

  lemma SplitNothing(g: Grid, pos: nat)
    requires g.Valid()
    ensures Split(g, pos, []) == []
  {
  }

  /** The piece the loop of `CoverRun` takes next is the head of the split run. */
  lemma NextPiece(g: Grid, offset: nat, data: Bytes, pos: nat, take: nat)
    requires g.Valid() && offset <= pos < offset + |data| && take == Take(g, pos, offset + |data| - pos)
    ensures var ps := Split(g, pos, data[pos - offset..]);
            && |ps| > 0
            && ps[0] == Piece(pos / g.size, Frag(pos % g.size, data[pos - offset..pos - offset + take]))
            && ps[1..] == Split(g, pos + take, data[pos + take - offset..])
  {
    var rest := data[pos - offset..];
    assert rest[..take] == data[pos - offset..pos - offset + take];
    assert rest[take..] == data[pos + take - offset..];
  }

  lemma {:induction false} EmptyTable(lens: seq<nat>, n: nat)
    ensures StoredBytes(map[], n) == 0 && CoveredBytes(lens, map[], {}, n) == 0
  {
    if n > 0 { EmptyTable(lens, n - 1); }
  }

  lemma {:induction false} NothingStored(n: nat)
    ensures StoredBytes(map[], n) == 0
  {
    if n > 0 { NothingStored(n - 1); }
  }

  /** `n` numbers below `n`, all different and none missing. */
  lemma {:induction false} DistinctCount(order: seq<nat>, n: nat)
    requires Distinct(order)
    requires forall k | 0 <= k < |order| :: order[k] < n
    requires forall i | 0 <= i < n :: i in order
    ensures |order| == n
  {
    if n == 0 {
    } else {
      assert n - 1 in order;
      var k :| 0 <= k < |order| && order[k] == n - 1;
      var rest := order[..k] + order[k + 1..];
      forall i | 0 <= i < n - 1
        ensures i in rest
      {
        assert i in order;
        var j :| 0 <= j < |order| && order[j] == i;
        assert rest[if j < k then j else j - 1] == i;
      }
      DistinctCount(rest, n - 1);
    }
  }

  function LenSum(lens: seq<nat>, n: nat): nat
    requires n <= |lens|
  {
    if n == 0 then 0 else LenSum(lens, n - 1) + lens[n - 1]
  }

  lemma {:induction false} LenSumIsPrefix(g: Grid, n: nat)
    requires g.Valid() && n <= g.Count()
    ensures LenSum(Lens(g), n) == if n * g.size <= g.total then n * g.size else g.total
  {
    if n > 0 {
      LenSumIsPrefix(g, n - 1);
      LensAt(g, g.Count(), n - 1);
      assert n * g.size == (n - 1) * g.size + g.size;
    }
  }

  lemma LensTotal(g: Grid)
    requires g.Valid()
    ensures LenSum(Lens(g), g.Count()) == g.total
    ensures forall i | 0 <= i < g.Count() :: Lens(g)[i] > 0
  {
    LenSumIsPrefix(g, g.Count());
    CountIff(g, g.Count());
    forall i | 0 <= i < g.Count() { LensAt(g, g.Count(), i); }
  }

  /** The covered total can only reach the sum of chunk lengths by filling every chunk. */
  lemma {:induction false} CoveredBound(lens: seq<nat>, partials: map<nat, Partial>, emitted: set<nat>,
                                        hist: seq<Piece>, n: nat)
    requires Tracks(lens, partials, emitted, hist) && n <= |lens|
    requires forall i | 0 <= i < |lens| :: lens[i] > 0
    ensures CoveredBytes(lens, partials, emitted, n) <= LenSum(lens, n)
    ensures CoveredBytes(lens, partials, emitted, n) == LenSum(lens, n) <==> forall i | 0 <= i < n :: i in emitted
  {
    if n > 0 {
      CoveredBound(lens, partials, emitted, hist, n - 1);
      var i := n - 1;
      assert TracksIdx(lens, partials, emitted, hist, i);
      assert CoveredAt(lens, partials, emitted, i) <= lens[i];
      assert CoveredAt(lens, partials, emitted, i) == lens[i] <==> i in emitted;
    }
  }

  lemma FullIff(lens: seq<nat>, partials: map<nat, Partial>, emitted: set<nat>, hist: seq<Piece>, idx: nat)
    requires Tracks(lens, partials, emitted, hist) && idx < |lens| && lens[idx] > 0
    ensures Covered(hist, idx) == lens[idx] <==> idx in emitted
  {
    assert TracksIdx(lens, partials, emitted, hist, idx);
  }

  lemma FinishIff(g: Grid, lens: seq<nat>, partials: map<nat, Partial>, emitted: set<nat>, hist: seq<Piece>)
    requires g.Valid() && lens == Lens(g) && Tracks(lens, partials, emitted, hist)
    ensures CoveredBytes(lens, partials, emitted, |lens|) == g.total && |partials| == 0
            <==> forall idx | 0 <= idx < |lens| :: Covered(hist, idx) == lens[idx]
    ensures CoveredBytes(lens, partials, emitted, |lens|) == g.total ==>
              forall idx | 0 <= idx < |lens| :: idx in emitted
  {
    LensTotal(g);
    CoveredBound(lens, partials, emitted, hist, |lens|);
    forall idx | 0 <= idx < |lens| { FullIff(lens, partials, emitted, hist, idx); }
    if forall idx | 0 <= idx < |lens| :: Covered(hist, idx) == lens[idx] {
      assert forall idx: nat :: TracksIdx(lens, partials, emitted, hist, idx) ==> idx !in partials;
      assert partials == map[];
    }
  }
}
