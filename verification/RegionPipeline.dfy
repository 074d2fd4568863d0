/** Whole runs of the region pipeline: a producer's calls, the chunker, the uploader and
    the manifest that comes out. */
module RegionPipeline {
  import opened Bytes
  import opened Coverage
  import opened Arithmetic
  import opened Chunking
  import opened Manifests
  import opened Regions
  import opened Uploader

  /** One producer call: real bytes, or a run of zeros given by its length. */
  datatype Call = DataAt(offset: nat, bytes: Bytes) | ZerosAt(offset: nat, len: nat) {
    function Payload(): Bytes {
      match this
      case DataAt(_, bytes) => bytes
      case ZerosAt(_, len) => Zeros(len)
    }

    predicate Touches(pos: nat) { offset <= pos < offset + |Payload()| }

    predicate InImage(image: Bytes) {
      offset + |Payload()| <= |image| && Payload() == image[offset..offset + |Payload()|]
    }
  }

  /** How many calls cover image position `pos`. */
  function CallHits(calls: seq<Call>, pos: nat): (n: nat) {
    if |calls| == 0 then 0
    else CallHits(calls[..|calls| - 1], pos) + if calls[|calls| - 1].Touches(pos) then 1 else 0
  }

  /** The pieces a run of calls breaks into. */
  function HistOf(g: Grid, calls: seq<Call>): (hist: seq<Piece>)
    requires g.Valid()
  {
    if |calls| == 0 then []
    else
      var last := calls[|calls| - 1];
      HistOf(g, calls[..|calls| - 1]) + Split(g, last.offset, last.Payload())
  }

  /** The producer contract: every byte of the image, once, in any order and any cut. */
  ghost predicate CoversOnce(calls: seq<Call>, image: Bytes) {
    && (forall i | 0 <= i < |calls| :: calls[i].InImage(image))
    && (forall pos | 0 <= pos < |image| :: CallHits(calls, pos) == 1)
  }

  /** The buffer cap is never reached along the run. */
  ghost predicate UnderCap(lens: seq<nat>, hist: seq<Piece>) {
    forall k | 0 <= k < |hist| :: CapOk(lens, hist[..k], hist[k])
  }

  predicate CapOk(lens: seq<nat>, before: seq<Piece>, p: Piece) {
    AllZero(p.frag.bytes) || BufferedOf(lens, before, |lens|) + |p.frag.bytes| <= PARTIAL_BUFFER_CAP
  }

  // ---- Calls and pieces --------------------------------------------------------------

  lemma {:induction false} HistHits(g: Grid, calls: seq<Call>, pos: nat)
    requires g.Valid()
    ensures Hits(g, HistOf(g, calls), pos) == CallHits(calls, pos)
  {
    hide Hits;
    if |calls| == 0 {
      HitsNone(g, pos);
    } else {
      var init, last := calls[..|calls| - 1], calls[|calls| - 1];
      HistHits(g, init, pos);
      HitsConcat(g, HistOf(g, init), Split(g, last.offset, last.Payload()), pos);
      SplitHits(g, last.offset, last.Payload(), pos);
    }
  }

  lemma {:induction false} HistSound(g: Grid, calls: seq<Call>, image: Bytes)
    requires g.Valid() && |image| == g.total
    requires forall i | 0 <= i < |calls| :: calls[i].InImage(image)
    ensures HistAgrees(Cut(g, image), HistOf(g, calls)) && AllFit(Lens(g), HistOf(g, calls))
  {
    if |calls| > 0 {
      var init, last := calls[..|calls| - 1], calls[|calls| - 1];
      HistSound(g, init, image);
      SplitAgrees(g, image, last.offset, last.Payload());
      SplitFits(g, last.offset, last.Payload());
    }
  }

  lemma HistPrefix(g: Grid, calls: seq<Call>, k: nat)
    requires g.Valid() && k < |calls|
    ensures HistOf(g, calls[..k + 1]) == HistOf(g, calls[..k]) + Split(g, calls[k].offset, calls[k].Payload())
  {
    assert calls[..k + 1][..k] == calls[..k];
  }

  lemma {:induction false} HistTail(g: Grid, calls: seq<Call>, k: nat) returns (rest: seq<Piece>)
    requires g.Valid() && k <= |calls|
    ensures HistOf(g, calls) == HistOf(g, calls[..k]) + rest
    decreases |calls| - k
  {
    if k == |calls| {
      rest := [];
      assert calls[..k] == calls;
    } else {
      var more := HistTail(g, calls, k + 1);
      HistPrefix(g, calls, k);
      var here := Split(g, calls[k].offset, calls[k].Payload());
      hide HistOf, Split;
      rest := here + more;
      Regroup(HistOf(g, calls[..k]), here, more);
    }
  }

  lemma Regroup(a: seq<Piece>, b: seq<Piece>, c: seq<Piece>)
    ensures (a + b) + c == a + (b + c)
  {
  }

  /** Coverage of a chunk by the pieces, told by image positions. */
  lemma ChunkHits(g: Grid, hist: seq<Piece>, idx: nat, k: nat)
    requires g.Valid() && idx < g.Count() && g.Has(idx) && k < g.Len(idx)
    ensures idx * g.size + k < g.total && Cnt(Of(hist, idx), k) == Hits(g, hist, idx * g.size + k)
  {
    Place(g, idx, k);
  }

  // ---- A run that covers every byte once succeeds -------------------------------------

  lemma {:induction false} PiecesDone(lens: seq<nat>, hist: seq<Piece>, ps: seq<Piece>, accepts: nat -> bool)
    requires AllFit(lens, hist + ps) && UnderCap(lens, hist + ps)
    requires forall idx | 0 <= idx < |lens| :: AtMostOnce(Of(hist + ps, idx), lens[idx])
    requires forall idx :: accepts(idx)
    ensures AllFit(lens, ps) && PiecesOutcome(lens, hist, ps, accepts) == Done
    decreases |ps|
  {
    assert AllFit(lens, ps) by {
      forall i | 0 <= i < |ps|
        ensures Fits(lens, ps[i])
      {
        assert (hist + ps)[|hist| + i] == ps[i];
      }
    }
    if |ps| > 0 {
      var p, rest := ps[0], ps[1..];
      assert hist + ps == hist + [p] + rest;
      PieceDone(lens, hist, p, rest, accepts);
      PiecesDone(lens, hist + [p], rest, accepts);
    }
  }

  lemma PieceDone(lens: seq<nat>, hist: seq<Piece>, p: Piece, rest: seq<Piece>, accepts: nat -> bool)
    requires AllFit(lens, hist + [p] + rest) && UnderCap(lens, hist + [p] + rest)
    requires p.idx < |lens| ==> AtMostOnce(Of(hist + [p] + rest, p.idx), lens[p.idx])
    requires forall idx :: accepts(idx)
    ensures Fits(lens, p) && PieceOutcome(lens, hist, p, accepts) == Done
  {
    var all := hist + [p] + rest;
    assert all[|hist|] == p && all[..|hist|] == hist;
    assert CapOk(lens, hist, p);
    forall i | 0 <= i < |hist + [p]|
      ensures Fits(lens, (hist + [p])[i])
    {
      assert all[i] == (hist + [p])[i];
    }
    OfWithin(lens, hist + [p], p.idx);
    OfConcat(hist + [p], rest, p.idx);
    forall k | 0 <= k < lens[p.idx]
      ensures Cnt(Of(hist + [p], p.idx), k) <= 1
    {
      CntConcat(Of(hist + [p], p.idx), Of(rest, p.idx), k);
      assert Cnt(Of(all, p.idx), k) <= 1;
    }
    OnceFits(Of(hist + [p], p.idx), lens[p.idx]);
    OfSnoc(hist, p, p.idx);
    SumLenSnoc(Of(hist, p.idx), p.frag);
  }

  lemma ChunkAtMostOnce(g: Grid, hist: seq<Piece>, idx: nat)
    requires g.Valid() && idx < g.Count()
    requires forall pos | 0 <= pos < g.total :: Hits(g, hist, pos) <= 1
    ensures AtMostOnce(Of(hist, idx), Lens(g)[idx])
  {
    hide Hits, Of, Cnt;
    LensAt(g, g.Count(), idx);
    forall j | 0 <= j < g.Len(idx)
      ensures Cnt(Of(hist, idx), j) <= 1
    {
      ChunkHits(g, hist, idx, j);
    }
  }

  lemma ChunkEverywhere(g: Grid, hist: seq<Piece>, idx: nat)
    requires g.Valid() && idx < g.Count()
    requires forall pos | 0 <= pos < g.total :: Hits(g, hist, pos) >= 1
    ensures Everywhere(Of(hist, idx), Lens(g)[idx])
  {
    hide Hits, Of, Cnt;
    LensAt(g, g.Count(), idx);
    forall j | 0 <= j < g.Len(idx)
      ensures Cnt(Of(hist, idx), j) >= 1
    {
      ChunkHits(g, hist, idx, j);
    }
  }

  lemma PrefixHits(g: Grid, calls: seq<Call>, k: nat, pos: nat)
    requires g.Valid() && k <= |calls|
    ensures Hits(g, HistOf(g, calls[..k]), pos) <= CallHits(calls, pos)
  {
    hide Hits;
    var rest := HistTail(g, calls, k);
    HitsConcat(g, HistOf(g, calls[..k]), rest, pos);
    HistHits(g, calls, pos);
  }

  /** Each call of a run that covers the image once succeeds, under the buffer cap and
      while the uploader takes messages. */
  lemma CallDone(g: Grid, calls: seq<Call>, image: Bytes, k: nat, accepts: nat -> bool)
    requires g.Valid() && |image| == g.total && CoversOnce(calls, image) && k < |calls|
    requires UnderCap(Lens(g), HistOf(g, calls)) && forall idx :: accepts(idx)
    ensures CallOutcome(g, HistOf(g, calls[..k]), calls[k].offset, calls[k].Payload(), accepts) == Done
  {
    hide HistOf, Split, Lens, PiecesOutcome, UnderCap, AtMostOnce, Of, CallHits, AllFit, HistAgrees, Hits;
    var c := calls[k];
    if |c.Payload()| > 0 {
      var lens, hist, ps := Lens(g), HistOf(g, calls[..k]), Split(g, c.offset, c.Payload());
      HistPrefix(g, calls, k);
      HistSound(g, calls[..k + 1], image);
      UnderCapPrefix(g, calls, k + 1);
      forall pos | 0 <= pos < g.total
        ensures Hits(g, hist + ps, pos) <= 1
      {
        PrefixHits(g, calls, k + 1, pos);
        assert CallHits(calls, pos) == 1;
      }
      forall idx | 0 <= idx < |lens|
        ensures AtMostOnce(Of(hist + ps, idx), lens[idx])
      {
        ChunkAtMostOnce(g, hist + ps, idx);
      }
      PiecesDone(lens, hist, ps, accepts);
    }
  }

  lemma UnderCapPrefix(g: Grid, calls: seq<Call>, k: nat)
    requires g.Valid() && k <= |calls| && UnderCap(Lens(g), HistOf(g, calls))
    ensures UnderCap(Lens(g), HistOf(g, calls[..k]))
  {
    var rest := HistTail(g, calls, k);
    var all, hist := HistOf(g, calls), HistOf(g, calls[..k]);
    forall i | 0 <= i < |hist|
      ensures CapOk(Lens(g), hist[..i], hist[i])
    {
      assert all[..i] == hist[..i] && all[i] == hist[i];
    }
  }

  // ---- What comes out of such a run -----------------------------------------------------

  /** The message of a chunk, told by its bytes alone. */
  function MessageOf(size: nat, chunk: Bytes, idx: nat): Completed {
    if AllZero(chunk) then Zero else Data(idx * size, chunk)
  }

  /** Every chunk is complete, and its message carries exactly its bytes. */
  lemma RunComplete(g: Grid, calls: seq<Call>, image: Bytes, idx: nat)
    requires g.Valid() && |image| == g.total && CoversOnce(calls, image) && idx < g.Count()
    ensures var hist := HistOf(g, calls);
            && AllFit(Lens(g), hist)
            && Covered(hist, idx) == Lens(g)[idx]
            && Message(g.size, Lens(g), hist, idx) == MessageOf(g.size, Cut(g, image)[idx], idx)
  {
    var hist, lens, chunks := HistOf(g, calls), Lens(g), Cut(g, image);
    HistSound(g, calls, image);
    forall pos | 0 <= pos < g.total { HistHits(g, calls, pos); }
    ChunkAtMostOnce(g, hist, idx);
    ChunkEverywhere(g, hist, idx);
    SameLength(g, image, idx);
    hide Lens, Cut, HistOf, CallHits, Hits;
    CompleteChunk(g.size, lens, chunks, hist, idx);
  }

  lemma SameLength(g: Grid, image: Bytes, idx: nat)
    requires g.Valid() && |image| == g.total && idx < g.Count()
    ensures |Cut(g, image)[idx]| == Lens(g)[idx]
  {
    LensAt(g, g.Count(), idx);
    CutAt(g, image, g.Count(), idx);
  }

  lemma CompleteChunk(size: nat, lens: seq<nat>, chunks: seq<Bytes>, hist: seq<Piece>, idx: nat)
    requires AllFit(lens, hist) && HistAgrees(chunks, hist) && idx < |lens|
    requires idx < |chunks| && |chunks[idx]| == lens[idx]
    requires AtMostOnce(Of(hist, idx), lens[idx]) && Everywhere(Of(hist, idx), lens[idx])
    ensures Covered(hist, idx) == lens[idx]
    ensures Message(size, lens, hist, idx) == MessageOf(size, chunks[idx], idx)
  {
    var fs := Of(hist, idx);
    OfWithin(lens, hist, idx);
    OnceLength(fs, lens[idx]);
    OfAgrees(chunks, hist, idx);
    RebuildBlock(fs, chunks[idx]);
  }

  lemma OnceLength(fs: seq<Frag>, n: nat)
    requires Within(fs, n) && AtMostOnce(fs, n) && Everywhere(fs, n)
    ensures SumLen(fs) == n
  {
    CountIsLength(fs, n);
    SumCntAtMostOnce(fs, n);
    SumCntAtLeastOnce(fs, n);
  }

  // ---- From messages to the canonical list ------------------------------------------------

  /** `sent` is one message per chunk, in some order. */
  ghost predicate SentAll(size: nat, chunks: seq<Bytes>, order: seq<nat>, sent: seq<Completed>) {
    && |sent| == |order| && Distinct(order)
    && (forall k | 0 <= k < |order| :: order[k] < |chunks| && sent[k] == MessageOf(size, chunks[order[k]], order[k]))
    && (forall idx | 0 <= idx < |chunks| :: idx in order)
  }

  lemma {:induction false} PutsFrom(sent: seq<Completed>, p: Put)
    ensures p in Puts(sent) <==> Data(p.offset, p.body) in sent
  {
    if |sent| > 0 {
      var init, last := sent[..|sent| - 1], sent[|sent| - 1];
      PutsFrom(init, p);
      assert sent == init + [last];
      PutsSnoc(init, last);
    }
  }

  ghost predicate FromOrder(size: nat, order: seq<nat>, n: nat, p: Put)
    requires n <= |order|
  {
    exists k | 0 <= k < n :: p.offset == order[k] * size
  }

  lemma FromOrderMore(size: nat, order: seq<nat>, n: nat, p: Put)
    requires n < |order| && FromOrder(size, order, n, p)
    ensures FromOrder(size, order, n + 1, p)
    ensures size > 0 && Distinct(order) ==> p.offset != order[n] * size
  {
    var k :| 0 <= k < n && p.offset == order[k] * size;
    if size > 0 && Distinct(order) { MulDistinct(order[k], order[n], size); }
  }

  ghost predicate DistinctPuts(ps: seq<Put>) {
    forall i, j | 0 <= i < j < |ps| :: ps[i].offset != ps[j].offset
  }

  lemma {:induction false} PutOffsets(size: nat, chunks: seq<Bytes>, order: seq<nat>, sent: seq<Completed>, n: nat)
    requires size > 0 && SentAll(size, chunks, order, sent) && n <= |sent|
    ensures DistinctPuts(Puts(sent[..n]))
    ensures forall p | p in Puts(sent[..n]) :: FromOrder(size, order, n, p)
  {
    hide Puts, FromOrder, SentAll, DistinctPuts;
    if n == 0 {
      assert sent[..0] == [];
      NoPuts();
    } else {
      PutOffsets(size, chunks, order, sent, n - 1);
      SentLast(size, chunks, order, sent, n - 1);
      assert sent[..n] == sent[..n - 1] + [sent[n - 1]];
      PutsStep(size, order, n, sent[..n - 1], sent[n - 1]);
    }
  }

  lemma NoPuts()
    ensures Puts([]) == [] && DistinctPuts([])
  {
  }

  /** One more message: its put is at a new offset. */
  lemma PutsStep(size: nat, order: seq<nat>, n: nat, before: seq<Completed>, m: Completed)
    requires size > 0 && 0 < n <= |order| && Distinct(order) && (m.Data? ==> m.offset == order[n - 1] * size)
    requires DistinctPuts(Puts(before)) && forall p | p in Puts(before) :: FromOrder(size, order, n - 1, p)
    ensures DistinctPuts(Puts(before + [m])) && forall p | p in Puts(before + [m]) :: FromOrder(size, order, n, p)
  {
    PutsSnoc(before, m);
    hide Puts, FromOrder, DistinctPuts, Distinct;
    forall p | p in Puts(before)
      ensures FromOrder(size, order, n, p) && p.offset != order[n - 1] * size
    {
      FromOrderMore(size, order, n - 1, p);
    }
    if m.Data? {
      LastFromOrder(size, order, n, Put(m.offset, m.body));
      DistinctSnoc(Puts(before), Put(m.offset, m.body));
    }
  }

  lemma SentLast(size: nat, chunks: seq<Bytes>, order: seq<nat>, sent: seq<Completed>, k: nat)
    requires SentAll(size, chunks, order, sent) && k < |sent|
    ensures k < |order| && (sent[k].Data? ==> sent[k].offset == order[k] * size) && Distinct(order)
  {
  }

  lemma DistinctSnoc(ps: seq<Put>, p: Put)
    requires DistinctPuts(ps) && forall q | q in ps :: q.offset != p.offset
    ensures DistinctPuts(ps + [p])
  {
  }

  lemma LastFromOrder(size: nat, order: seq<nat>, n: nat, p: Put)
    requires 0 < n <= |order| && p.offset == order[n - 1] * size
    ensures FromOrder(size, order, n, p)
  {
  }

  lemma {:induction false} OnceInMultiset(refs: seq<ChunkRef>, r: ChunkRef)
    requires DistinctOffsets(refs)
    ensures multiset(refs)[r] <= 1
  {
    if |refs| > 0 {
      var init, last := refs[..|refs| - 1], refs[|refs| - 1];
      OnceInMultiset(init, r);
      assert refs == init + [last];
      if r == last {
        assert forall i | 0 <= i < |init| :: init[i] != r;
        assert multiset(init)[r] == 0;
      }
    }
  }

  lemma TwiceInMultiset(s: seq<ChunkRef>, i: nat, j: nat)
    requires i < j < |s| && s[i] == s[j]
    ensures multiset(s)[s[i]] >= 2
  {
    assert s == s[..j] + [s[j]] + s[j + 1..];
    assert s[..j][i] == s[i];
    assert multiset(s[..j])[s[i]] >= 1;
  }

  /** Sorting refs with different offsets orders them strictly. */
  lemma SortedStrictly(s: seq<ChunkRef>, refs: seq<ChunkRef>)
    requires Sorted(s) && multiset(s) == multiset(refs) && DistinctOffsets(refs)
    ensures StrictlySorted(s) && forall r :: r in s <==> r in refs
  {
    forall r
      ensures r in s <==> r in refs
    {
      assert r in s <==> r in multiset(s);
    }
    forall i, j | 0 <= i < j < |s|
      ensures s[i].offset < s[j].offset
    {
      if s[i] == s[j] {
        TwiceInMultiset(s, i, j);
        OnceInMultiset(refs, s[i]);
      } else {
        assert s[i] in refs && s[j] in refs;
      }
    }
  }

  /** Whatever the order of the messages and of the completions, the sorted refs are the
      canonical list. */
  lemma UploadIsCanonical(size: nat, chunks: seq<Bytes>, order: seq<nat>, sent: seq<Completed>, hash: Bytes -> Digest,
                          s: seq<ChunkRef>)
    requires size > 0 && SentAll(size, chunks, order, sent)
    requires Sorted(s) && multiset(s) == multiset(Refs(Puts(sent), hash))
    ensures s == RefsTo(size, chunks, hash, |chunks|)
  {
    var ps := Puts(sent);
    assert sent[..|sent|] == sent;
    PutOffsets(size, chunks, order, sent, |sent|);
    SortedStrictly(s, Refs(ps, hash));
    forall r
      ensures r in s <==> RefOf(size, chunks, hash, |chunks|, r)
    {
      RefMembers(size, chunks, order, sent, hash, r);
    }
    CollectedIsCanonical(size, chunks, hash, s);
  }

  lemma RefMembers(size: nat, chunks: seq<Bytes>, order: seq<nat>, sent: seq<Completed>, hash: Bytes -> Digest,
                   r: ChunkRef)
    requires SentAll(size, chunks, order, sent)
    ensures r in Refs(Puts(sent), hash) <==> RefOf(size, chunks, hash, |chunks|, r)
  {
    var ps := Puts(sent);
    if r in Refs(ps, hash) {
      var i :| 0 <= i < |ps| && Refs(ps, hash)[i] == r;
      PutsFrom(sent, ps[i]);
      var k :| 0 <= k < |sent| && sent[k] == Data(ps[i].offset, ps[i].body);
      assert IsRef(size, chunks, hash, order[k], r);
    }
    if RefOf(size, chunks, hash, |chunks|, r) {
      var i :| 0 <= i < |chunks| && IsRef(size, chunks, hash, i, r);
      assert i in order;
      var k :| 0 <= k < |order| && order[k] == i;
      assert sent[k] == Data(i * size, chunks[i]);
      PutsFrom(sent, Put(i * size, chunks[i]));
      var j :| 0 <= j < |ps| && ps[j] == Put(i * size, chunks[i]);
      assert Refs(ps, hash)[j] == r;
    }
  }

  // ---- What a successful finish proves, for any run -----------------------------------------

  ghost predicate NoByteTwice(g: Grid, hist: seq<Piece>)
    requires g.Valid()
  {
    forall pos | 0 <= pos < g.total :: Hits(g, hist, pos) <= 1
  }

  ghost predicate NoByteMissed(g: Grid, hist: seq<Piece>)
    requires g.Valid()
  {
    forall pos | 0 <= pos < g.total :: Hits(g, hist, pos) >= 1
  }

  /** What `Finish` accepts: every chunk counted full. */
  ghost predicate Finished(g: Grid, hist: seq<Piece>)
    requires g.Valid()
  {
    AllFit(Lens(g), hist) && forall idx | 0 <= idx < g.Count() :: Covered(hist, idx) == Lens(g)[idx]
  }

  /** Counting is all the chunker does, so a run that finishes may still have covered a
      byte twice; but then some byte of the same chunk was never covered. The producer
      contract holds of a finished run exactly when its calls did not overlap. */
  lemma FinishedIff(g: Grid, hist: seq<Piece>)
    requires g.Valid() && Finished(g, hist)
    ensures NoByteTwice(g, hist) <==> NoByteMissed(g, hist)
    ensures NoByteTwice(g, hist) <==> forall pos | 0 <= pos < g.total :: Hits(g, hist, pos) == 1
  {
    hide Hits, Finished;
    if NoByteTwice(g, hist) {
      forall pos | 0 <= pos < g.total
        ensures Hits(g, hist, pos) == 1
      {
        OnceAt(g, hist, pos);
      }
    }
    if NoByteMissed(g, hist) {
      forall pos | 0 <= pos < g.total
        ensures Hits(g, hist, pos) == 1
      {
        OnceAt(g, hist, pos);
      }
    }
  }

  lemma OnceAt(g: Grid, hist: seq<Piece>, pos: nat)
    requires g.Valid() && Finished(g, hist) && pos < g.total && (NoByteTwice(g, hist) || NoByteMissed(g, hist))
    ensures Hits(g, hist, pos) == 1
  {
    hide Of, Cnt, LensTo, AtMostOnce, Everywhere;
    Locate(g, pos);
    var idx := pos / g.size;
    LensAt(g, g.Count(), idx);
    assert Covered(hist, idx) == Lens(g)[idx];
    OfWithin(Lens(g), hist, idx);
    FullCountIff(Of(hist, idx), Lens(g)[idx]);
    if NoByteTwice(g, hist) { ChunkAtMostOnce(g, hist, idx); } else { ChunkEverywhere(g, hist, idx); }
  }

  /** A byte covered twice in a finished run sits beside an uncovered byte of its chunk. */
  lemma DoubleHidesHole(g: Grid, hist: seq<Piece>, pos: nat) returns (hole: nat)
    requires g.Valid() && Finished(g, hist) && pos < g.total && Hits(g, hist, pos) >= 2
    ensures hole < g.total && hole / g.size == pos / g.size && Hits(g, hist, hole) == 0
  {
    hide Of, Cnt, LensTo;
    Locate(g, pos);
    var idx := pos / g.size;
    LensAt(g, g.Count(), idx);
    var k := HoleInChunk(Lens(g), hist, idx, pos % g.size);
    Place(g, idx, k);
    hole := idx * g.size + k;
  }

  lemma HoleInChunk(lens: seq<nat>, hist: seq<Piece>, idx: nat, j: nat) returns (k: nat)
    requires AllFit(lens, hist) && idx < |lens| && Covered(hist, idx) == lens[idx]
    requires j < lens[idx] && Cnt(Of(hist, idx), j) >= 2
    ensures k < lens[idx] && Cnt(Of(hist, idx), k) == 0
  {
    hide Of, Cnt;
    OfWithin(lens, hist, idx);
    FullCountIff(Of(hist, idx), lens[idx]);
    k :| 0 <= k < lens[idx] && Cnt(Of(hist, idx), k) == 0;
  }

  /** The overlap that slips through: two calls write byte 0 of a two-byte image, byte 1
      is never written, and the finished chunk carries the second write and a zero. */
  lemma OverlapSlipsThrough()
    ensures var g, accepts := Grid(2, 2), (i: nat) => true;
            var first := Split(g, 0, [1]);
            var hist := first + Split(g, 0, [2]);
            && CallOutcome(g, [], 0, [1], accepts) == Done
            && CallOutcome(g, first, 0, [2], accepts) == Done
            && Finished(g, hist)
            && Hits(g, hist, 0) == 2 && Hits(g, hist, 1) == 0
            && Message(g.size, Lens(g), hist, 0) == Data(0, [2, 0])
  {
    var g := Grid(2, 2);
    var p1, p2 := Piece(0, Frag(0, [1])), Piece(0, Frag(0, [2]));
    TinySplit(1);
    TinySplit(2);
    TinyLens();
    TinyCounts(p1, p2);
    TinyMessage(p1, p2);
    assert [p1] + [p2] == [p1, p2];
    var accepts := (i: nat) => true;
    hide Split, Lens, Message, Of, SumLen, BufferedOf, Cnt, Hits, Covered, CallOutcome;
    TinyCall([], 1, accepts);
    TinyCall([p1], 2, accepts);
    TinyFinished(p1, p2);
    hide Finished;
  }

  lemma TinyFinished(p1: Piece, p2: Piece)
    requires p1 == Piece(0, Frag(0, [1])) && p2 == Piece(0, Frag(0, [2]))
    ensures Finished(Grid(2, 2), [p1, p2])
  {
    TinyLens();
    TinyCounts(p1, p2);
    hide Lens, Covered, Hits, BufferedOf;
  }

  /** A one-byte call at the start of the tiny image succeeds while its chunk has room. */
  lemma TinyCall(hist: seq<Piece>, b: byte, accepts: nat -> bool)
    requires Covered(hist, 0) <= 1 && BufferedOf([2], hist, 1) <= 1 && accepts(0)
    ensures CallOutcome(Grid(2, 2), hist, 0, [b], accepts) == Done
  {
    TinySplit(b);
    TinyLens();
    var p := Piece(0, Frag(0, [b]));
    hide Split, Lens, BufferedOf, Covered;
    assert AllFit([2], [p]) && [p][1..] == [];
    assert PieceOutcome([2], hist, p, accepts) == Done;
    assert PiecesOutcome([2], hist + [p], [], accepts) == Done;
  }

  lemma TinySplit(b: byte)
    ensures Split(Grid(2, 2), 0, [b]) == [Piece(0, Frag(0, [b]))]
  {
    SplitNothing(Grid(2, 2), 1);
    assert [b][..1] == [b];
  }

  lemma TinyLens()
    ensures Lens(Grid(2, 2)) == [2] && Grid(2, 2).Count() == 1
  {
    assert LensTo(Grid(2, 2), 1) == LensTo(Grid(2, 2), 0) + [2];
  }

  lemma TinyOf(p1: Piece, p2: Piece)
    requires p1.idx == p2.idx == 0
    ensures Of([p1], 0) == [p1.frag] && Of([p1, p2], 0) == [p1.frag, p2.frag]
  {
    OfSnoc([], p1, 0);
    OfSnoc([p1], p2, 0);
    assert [] + [p1] == [p1] && [p1] + [p2] == [p1, p2];
  }

  lemma TinyCounts(p1: Piece, p2: Piece)
    requires p1 == Piece(0, Frag(0, [1])) && p2 == Piece(0, Frag(0, [2]))
    ensures Covered([], 0) == 0 && Covered([p1], 0) == 1 && Covered([p1, p2], 0) == 2
    ensures BufferedOf([2], [], 1) == 0 && BufferedOf([2], [p1], 1) <= 1
    ensures Hits(Grid(2, 2), [p1, p2], 0) == 2 && Hits(Grid(2, 2), [p1, p2], 1) == 0
  {
    TinyOf(p1, p2);
    hide Of;
    var f1, f2 := p1.frag, p2.frag;
    assert [f1, f2][..1] == [f1] && [f1][..0] == [];
    assert SumLen([f1]) == 1 && SumLen([f1, f2]) == 2;
    assert NonZero([f1]) == [f1] || NonZero([f1]) == [];
    assert BufferedOf([2], [p1], 0) == 0;
    CntOne(f1, 0);
    CntOne(f1, 1);
    assert 0 / 2 == 0 && 0 % 2 == 0 && 1 / 2 == 0 && 1 % 2 == 1;
    assert Cnt([f1, f2], 0) == 2 && Cnt([f1, f2], 1) == 0;
  }

  lemma TinyMessage(p1: Piece, p2: Piece)
    requires p1 == Piece(0, Frag(0, [1])) && p2 == Piece(0, Frag(0, [2]))
    ensures Message(2, [2], [p1, p2], 0) == Data(0, [2, 0])
  {
    TinyOf(p1, p2);
    hide Of;
    var f1, f2 := p1.frag, p2.frag;
    assert f1.bytes[0] == 1 && f2.bytes[0] == 2;
    assert [f1, f2][..1] == [f1] && [f1][..0] == [];
    assert NonZero([f1]) == [f1];
    assert NonZero([f1, f2]) == [f1, f2];
    var one := Assemble(2, [f1]);
    assert Assemble(2, [f1][..0]) == Zeros(2);
    assert one == Patch(Zeros(2), f1);
    assert Assemble(2, [f1, f2]) == Patch(one, f2) == [2, 0];
  }

  // ---- The whole pipeline -----------------------------------------------------------------

  datatype BuildResult =
    | ImageBuilt(manifest: Manifest, stats: Stats, progress: seq<nat>, store: map<Digest, Bytes>)
    | CallFailed(error: CoverError)
    | FinishFailed
    | UploadFailed(put: Put)

  /** Drives a chunker through a run of calls, up to the first failure. */
  method Produce(c: RegionChunker, calls: seq<Call>) returns (r: Outcome)
    requires c.Valid() && c.hist == []
    modifies c
    ensures r.Done? ==> c.Valid() && c.hist == HistOf(c.grid, calls)
    ensures r.Done? <==> forall k | 0 <= k < |calls| ::
              CallOutcome(c.grid, HistOf(c.grid, calls[..k]), calls[k].offset, calls[k].Payload(), c.accepts) == Done
  {
    hide HistOf, CallOutcome, Split;
    HistNone(c.grid);
    assert calls[..0] == [];
    for k := 0 to |calls|
      invariant c.Valid() && c.hist == HistOf(c.grid, calls[..k])
      invariant forall j | 0 <= j < k ::
                  CallOutcome(c.grid, HistOf(c.grid, calls[..j]), calls[j].offset, calls[j].Payload(), c.accepts)
                  == Done
    {
      HistPrefix(c.grid, calls, k);
      match calls[k] {
        case DataAt(offset, bytes) => r := c.Data(offset, bytes);
        case ZerosAt(offset, len) => r := c.ZeroRun(offset, len);
      }
      if r.Failed? {
        return;
      }
    }
    assert calls[..|calls|] == calls;
    r := Done;
  }

  lemma HistNone(g: Grid)
    requires g.Valid()
    ensures HistOf(g, []) == []
  {
  }

  /** The uploader takes every message. */
  predicate Listens(idx: nat) { true }

  /** The producer keeps its contract and stays under the cap. */
  ghost predicate Honoured(g: Grid, calls: seq<Call>, image: Bytes)
    requires g.Valid()
  {
    |image| == g.total && CoversOnce(calls, image) && UnderCap(Lens(g), HistOf(g, calls))
  }

  /** What the producer sends as long as the uploader listens, and how it ends by itself. */
  datatype Collected =
    | Messages(sent: seq<Completed>)
    | Stopped(sent: seq<Completed>, error: CoverError)
    | Short(sent: seq<Completed>)

  /** The synchronous half: every call, then `Finish`. */
  method Collect(g: Grid, calls: seq<Call>, ghost image: Bytes)
    returns (r: Collected, ghost order: seq<nat>)
    requires g.Valid()
    ensures Honoured(g, calls, image) ==> r.Messages? && SentAll(g.size, Cut(g, image), order, r.sent)
  {
    hide HistOf, Lens, CallOutcome, Cut, UnderCap, SentAll;
    var c := new RegionChunker(g.size, g.total, Listens);
    var p := Produce(c, calls);
    order := [];
    if Honoured(g, calls, image) {
      forall k | 0 <= k < |calls| { CallDone(g, calls, image, k, Listens); }
    }
    if p.Failed? {
      return Stopped(c.sent, p.error), order;
    }
    var f := c.Finish();
    if Honoured(g, calls, image) {
      forall idx | 0 <= idx < |c.lens| { RunComplete(g, calls, image, idx); }
      AllSent(g, calls, image, c.order, c.sent);
    }
    if f.UnderCovered? {
      return Short(c.sent), order;
    }
    r, order := Messages(c.sent), c.order;
  }

  /** The chunks a list of pieces completes before its first failure, while the uploader
      listens. */
  function Completes(lens: seq<nat>, hist: seq<Piece>, ps: seq<Piece>): seq<nat>
    requires AllFit(lens, ps)
    decreases |ps|
  {
    if |ps| == 0 || PieceOutcome(lens, hist, ps[0], Listens).Failed? then []
    else
      var rest := Completes(lens, hist + [ps[0]], ps[1..]);
      if Covered(hist, ps[0].idx) + |ps[0].frag.bytes| == lens[ps[0].idx] then [ps[0].idx] + rest else rest
  }

  /** An uploader that stops listening turns the producer away at the first chunk it no longer
      takes, and otherwise changes nothing. */
  lemma {:induction false} RefusedIff(lens: seq<nat>, hist: seq<Piece>, ps: seq<Piece>, accepts: nat -> bool)
    requires AllFit(lens, ps)
    ensures PiecesOutcome(lens, hist, ps, accepts)
            == if forall idx | idx in Completes(lens, hist, ps) :: accepts(idx)
               then PiecesOutcome(lens, hist, ps, Listens) else Failed(UploaderGone)
    decreases |ps|
  {
    if |ps| > 0 {
      hide Covered, BufferedOf;
      RefusedIff(lens, hist + [ps[0]], ps[1..], accepts);
    }
  }

  /** Opens a pipeline for an image and runs the producer against the uploader, which take turns
      in any way the channel allows. An upload failure is reported before the producer's own,
      which it may have caused. */
  method BuildFromRegions(kind: ManifestKind, total: nat, calls: seq<Call>, hash: Bytes -> Digest, lands: Bytes -> bool,
                          store: map<Digest, Bytes>, ghost image: Bytes)
    returns (r: BuildResult)
    requires Honest(store, hash)
    ensures r.UploadFailed? ==> !lands(r.put.body)
    ensures var g := Grid(DefaultChunkSize(kind), total);
            Honoured(g, calls, image) ==>
              && (r.ImageBuilt? || r.UploadFailed?)
              && (r.ImageBuilt? <==>
                    forall i | 0 <= i < g.Count() && !AllZero(Cut(g, image)[i]) :: lands(Cut(g, image)[i]))
              && (r.ImageBuilt? ==> Complete(kind, g, image, hash, r))
  {
    hide Cut, SentAll, Monotone, Honest, Sorted, Puts, Refs, RefsTo, Stocked;
    var g := Grid(DefaultChunkSize(kind), total);
    ghost var order;
    var c;
    c, order := Collect(g, calls, image);
    var u, reports, store', sent := Upload(kind, g.size, total, c.sent, hash, lands, store);
    if Honoured(g, calls, image) { LandsIff(g.size, Cut(g, image), order, c.sent, lands); }
    if u.PutFailed? {
      return UploadFailed(u.put);
    }
    match c {
      case Stopped(_, error) => return CallFailed(error);
      case Short(_) => return FinishFailed;
      case Messages(_) =>
        r := ImageBuilt(u.manifest, u.stats, reports, store');
        if Honoured(g, calls, image) {
          Delivered(g.size, Cut(g, image), order, c.sent, hash, u.manifest.chunks, store');
        }
    }
  }

  /** The manifest is the canonical one, every listed chunk is durable, the statistics add up,
      and progress is monotone and complete. */
  ghost predicate Complete(kind: ManifestKind, g: Grid, image: Bytes, hash: Bytes -> Digest, r: BuildResult)
    requires g.Valid() && |image| == g.total && r.ImageBuilt?
  {
    && r.manifest == Canonical(kind, g, image, hash)
    && Honest(r.store, hash) && Stocked(r.store, hash, Cut(g, image))
    && r.stats.chunksUploaded == |r.manifest.chunks| && r.stats.chunksUploaded + r.stats.chunksElided == g.Count()
    && |r.progress| > 0 && Monotone(r.progress) && r.progress[|r.progress| - 1] == g.Count()
    && Every32(r.progress[..|r.progress| - 1])
  }

  /** The puts asked for are those of the chunks that hold data. */
  lemma LandsIff(size: nat, chunks: seq<Bytes>, order: seq<nat>, sent: seq<Completed>, lands: Bytes -> bool)
    requires SentAll(size, chunks, order, sent)
    ensures (forall p | p in Puts(sent) :: lands(p.body))
            <==> forall i | 0 <= i < |chunks| && !AllZero(chunks[i]) :: lands(chunks[i])
  {
    hide Puts, AllZero;
    forall p | p in Puts(sent)
      ensures exists i | 0 <= i < |chunks| :: !AllZero(chunks[i]) && p.body == chunks[i]
    {
      PutsFrom(sent, p);
      var k :| 0 <= k < |sent| && sent[k] == Data(p.offset, p.body);
      assert !AllZero(chunks[order[k]]) && p.body == chunks[order[k]];
    }
    forall i | 0 <= i < |chunks| && !AllZero(chunks[i])
      ensures Put(i * size, chunks[i]) in Puts(sent)
    {
      assert i in order;
      var k :| 0 <= k < |order| && order[k] == i;
      PutsFrom(sent, Put(i * size, chunks[i]));
      assert sent[k] == Data(i * size, chunks[i]);
    }
    assert forall i | 0 <= i < |chunks| && !AllZero(chunks[i]) :: Put(i * size, chunks[i]).body == chunks[i];
  }

  lemma Delivered(size: nat, chunks: seq<Bytes>, order: seq<nat>, sent: seq<Completed>, hash: Bytes -> Digest,
                  refs: seq<ChunkRef>, store: map<Digest, Bytes>)
    requires size > 0 && SentAll(size, chunks, order, sent)
    requires Sorted(refs) && multiset(refs) == multiset(Refs(Puts(sent), hash))
    requires forall p | p in Puts(sent) :: hash(p.body) in store
    ensures refs == RefsTo(size, chunks, hash, |chunks|)
    ensures Stocked(store, hash, chunks)
    ensures |sent| == |chunks| && |Puts(sent)| == |refs|
  {
    UploadIsCanonical(size, chunks, order, sent, hash, refs);
    DistinctCount(order, |chunks|);
    assert |multiset(refs)| == |refs| && |multiset(Refs(Puts(sent), hash))| == |Puts(sent)|;
    forall i | 0 <= i < |chunks| && !AllZero(chunks[i])
      ensures hash(chunks[i]) in store
    {
      assert i in order;
      var k :| 0 <= k < |order| && order[k] == i;
      PutsFrom(sent, Put(i * size, chunks[i]));
      assert sent[k] == Data(i * size, chunks[i]);
    }
  }

  /** The store can serve every non-zero chunk. */
  ghost predicate Stocked(store: map<Digest, Bytes>, hash: Bytes -> Digest, chunks: seq<Bytes>) {
    forall i | 0 <= i < |chunks| && !AllZero(chunks[i]) :: hash(chunks[i]) in store
  }

  lemma AllSent(g: Grid, calls: seq<Call>, image: Bytes, order: seq<nat>, sent: seq<Completed>)
    requires g.Valid() && |image| == g.total && CoversOnce(calls, image)
    requires AllFit(Lens(g), HistOf(g, calls))
    requires Distinct(order) && |sent| == |order| && forall idx | 0 <= idx < g.Count() :: idx in order
    requires forall k | 0 <= k < |order| :: SentAt(g.size, Lens(g), sent[k], order[k], HistOf(g, calls))
    ensures SentAll(g.size, Cut(g, image), order, sent)
  {
    hide HistOf, Lens, Cut, CoversOnce;
    forall k | 0 <= k < |order|
      ensures order[k] < g.Count() && sent[k] == MessageOf(g.size, Cut(g, image)[order[k]], order[k])
    {
      assert SentAt(g.size, Lens(g), sent[k], order[k], HistOf(g, calls));
      RunComplete(g, calls, image, order[k]);
    }
  }
}
