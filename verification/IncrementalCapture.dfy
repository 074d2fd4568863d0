/** Incremental captures: the dirty chunks are rebuilt by concurrent tasks, each new object is
    claimed before it is put, and the results are folded into the previous chunk list once
    every task has finished.

    The store reads through the host's cache and fills it, and the cache may lose, at any
    moment, the digests an update names as `swept`. */
module IncrementalCapture {
  import opened Bytes
  import opened Chunking
  import opened Manifests
  import opened Materialize
  import opened Uploader
  import opened Delta
  import opened Wrappers
  import opened SparseRechunk
  import opened Arithmetic

  const SPARSE_RECHUNK_CONCURRENCY: nat := 96

  /** Rebuilt chunks go to the blob store, or to the host's own cache while a move is on. */
  datatype Sink = Durable | LocalCache

  /** A put under way for the chunk rebuilt at `idx`. */
  datatype Flight = Flight(idx: nat, hash: Digest, body: Bytes)

  /** A task's result: the new digest, or none if the chunk became zero. */
  datatype Finished = Finished(idx: nat, hash: Option<Digest>)

  datatype Tasks = Tasks(todo: set<nat>, inflight: seq<Flight>, finished: seq<Finished>, store: map<Digest, Bytes>,
                         cache: map<Digest, Bytes>, claimed: set<Digest>, puts: seq<Digest>)
  {
    /** What a read finds: the cache's copy, else the store's. */
    function View(): map<Digest, Bytes> { store + cache }
  }

  datatype RechunkResult =
    | Next(manifest: Manifest, store: map<Digest, Bytes>, cache: map<Digest, Bytes>, puts: seq<Digest>,
           newHashes: seq<Digest>)
    | BadManifest(error: ManifestError)
    | ChunkMissing(hash: Digest)
    | DiffTooShort
    | PutLost(body: Bytes)

  /** What the tasks of one update work towards: the new image's chunks `nc`, those of them to
      rebuild, the digests the previous manifest lists, and what was there to begin with. */
  datatype Job = Job(nc: seq<Bytes>, hash: Bytes -> Digest, sink: Sink, dirty: set<nat>, listed: set<Digest>,
                     store0: map<Digest, Bytes>, cache0: map<Digest, Bytes>, swept: set<Digest>)

  // ---- The tasks --------------------------------------------------------------------------------

  /** The chunk waits for its task, is being put, or is finished. */
  ghost predicate Accounted(t: Tasks, idx: nat) {
    || idx in t.todo
    || (exists k | 0 <= k < |t.inflight| :: t.inflight[k].idx == idx)
    || (exists k | 0 <= k < |t.finished| :: t.finished[k].idx == idx)
  }

  /** The object is durable, or on its way. */
  ghost predicate Coming(t: Tasks, h: Digest) {
    h in t.store || exists k | 0 <= k < |t.inflight| :: t.inflight[k].hash == h
  }

  /** The digest of a chunk that is to be rebuilt and is not zero. */
  ghost predicate IsNew(j: Job, h: Digest) {
    exists idx | idx in j.dirty && idx < |j.nc| :: !AllZero(j.nc[idx]) && h == j.hash(j.nc[idx])
  }

  ghost predicate FlightOk(j: Job, t: Tasks, f: Flight) {
    && f.hash in t.claimed && f.idx in j.dirty && f.idx < |j.nc|
    && f.body == j.nc[f.idx] && !AllZero(f.body) && f.hash == j.hash(f.body)
  }

  ghost predicate FinishedOk(j: Job, t: Tasks, f: Finished) {
    && f.idx in j.dirty && f.idx < |j.nc| && f.hash == RefAt(j.nc, j.hash, f.idx)
    && (f.hash.Some? ==> Placed(j, t, f.hash.value))
  }

  /** The digest is claimed, or it went to the cache. */
  ghost predicate Placed(j: Job, t: Tasks, h: Digest) {
    h in t.claimed || (j.sink.LocalCache? && (h in t.cache || h in j.swept))
  }

  /** The store and the cache hold what their digests say, and lose nothing but what is swept. */
  ghost predicate Kept(j: Job, t: Tasks) {
    && Honest(t.store, j.hash) && Honest(t.cache, j.hash)
    && Extends(j.store0, t.store) && j.cache0.Keys <= t.cache.Keys + j.swept
  }

  /** The tasks over the new image's chunks, whatever their schedule so far. */
  ghost predicate Underway(j: Job, t: Tasks) {
    && Kept(j, t)
    && t.todo <= j.dirty && (forall idx | idx in j.dirty :: Accounted(t, idx))
    && (forall k | 0 <= k < |t.inflight| :: FlightOk(j, t, t.inflight[k]))
    && (forall k | 0 <= k < |t.finished| :: FinishedOk(j, t, t.finished[k]))
    && (forall h | h in t.claimed :: h in j.listed || Coming(t, h))
    && (forall k | 0 <= k < |t.puts| :: IsNew(j, t.puts[k]))
  }

  /** Each object is created once, and none that the previous manifest lists. */
  ghost predicate PutOnce(puts: seq<Digest>, listed: set<Digest>, claimed: set<Digest>) {
    && listed <= claimed
    && (forall i | 0 <= i < |puts| :: puts[i] in claimed && puts[i] !in listed)
    && (forall i, j | 0 <= i < j < |puts| :: puts[i] != puts[j])
  }

  /** The store gains what is put, and nothing else. */
  ghost predicate Booked(t: Tasks, store0: map<Digest, Bytes>) {
    forall h :: Coming(t, h) <==> h in store0 || h in t.puts
  }

  function FinishNow(t: Tasks, idx: nat, h: Option<Digest>): Tasks {
    t.(todo := t.todo - {idx}, finished := t.finished + [Finished(idx, h)])
  }

  function Launch(t: Tasks, idx: nat, h: Digest, body: Bytes): Tasks {
    t.(todo := t.todo - {idx}, inflight := t.inflight + [Flight(idx, h, body)],
       claimed := t.claimed + {h}, puts := t.puts + [h])
  }

  function Land(t: Tasks, n: nat): Tasks
    requires n < |t.inflight|
  {
    var f := t.inflight[n];
    t.(inflight := Without(t.inflight, n), store := t.store[f.hash := f.body],
       finished := t.finished + [Finished(f.idx, Some(f.hash))])
  }

  function Warm(t: Tasks, h: Digest, body: Bytes): Tasks {
    t.(cache := t.cache[h := body])
  }

  function Evict(t: Tasks, h: Digest): Tasks {
    t.(cache := t.cache - {h})
  }

  lemma WarmKeeps(j: Job, t: Tasks, h: Digest, body: Bytes)
    requires Underway(j, t) && j.hash(body) == h
    ensures Underway(j, Warm(t, h, body))
  {
    CacheKeeps(j, t, Warm(t, h, body));
  }

  lemma EvictKeeps(j: Job, t: Tasks, h: Digest)
    requires Underway(j, t) && h in j.swept
    ensures Underway(j, Evict(t, h))
  {
    CacheKeeps(j, t, Evict(t, h));
  }

  /** The cache may change as long as it stays honest and loses only what is swept. */
  lemma CacheKeeps(j: Job, t: Tasks, u: Tasks)
    requires Underway(j, t) && u == t.(cache := u.cache)
    requires Honest(u.cache, j.hash) && t.cache.Keys <= u.cache.Keys + j.swept
    ensures Underway(j, u)
  {
    forall i | i in j.dirty
      ensures Accounted(u, i)
    {
      assert Accounted(t, i);
    }
    forall h | h in u.claimed
      ensures h in j.listed || Coming(u, h)
    {
      assert h in j.listed || Coming(t, h);
    }
    hide Accounted, Coming, Honest, Extends, IsNew, RefAt;
    assert forall k | 0 <= k < |u.inflight| :: FlightOk(j, t, t.inflight[k]) && FlightOk(j, u, u.inflight[k]);
    assert forall k | 0 <= k < |u.finished| :: FinishedOk(j, t, t.finished[k]) && FinishedOk(j, u, u.finished[k]);
  }

  lemma FinishAccounts(t: Tasks, idx: nat, h: Option<Digest>, i: nat)
    requires Accounted(t, i)
    ensures Accounted(FinishNow(t, idx, h), i)
  {
    var u := FinishNow(t, idx, h);
    if i == idx { assert u.finished[|t.finished|].idx == i; }
    else if k :| 0 <= k < |t.finished| && t.finished[k].idx == i { assert u.finished[k].idx == i; }
  }

  lemma FinishKeeps(j: Job, t: Tasks, idx: nat)
    requires Underway(j, t) && idx in j.dirty && idx < |j.nc|
    requires RefAt(j.nc, j.hash, idx).Some? ==> Placed(j, t, RefAt(j.nc, j.hash, idx).value)
    ensures Underway(j, FinishNow(t, idx, RefAt(j.nc, j.hash, idx)))
  {
    var u := FinishNow(t, idx, RefAt(j.nc, j.hash, idx));
    forall i | i in j.dirty
      ensures Accounted(u, i)
    {
      FinishAccounts(t, idx, RefAt(j.nc, j.hash, idx), i);
    }
    forall h | h in u.claimed
      ensures h in j.listed || Coming(u, h)
    {
      assert h in j.listed || Coming(t, h);
    }
    hide Accounted, Coming, Kept, IsNew, RefAt;
    assert Kept(j, u) by { SameKept(j, t, u); }
    assert forall k | 0 <= k < |u.inflight| :: FlightOk(j, t, t.inflight[k]) && FlightOk(j, u, u.inflight[k]);
    forall k | 0 <= k < |u.finished|
      ensures FinishedOk(j, u, u.finished[k])
    {
      assert k < |t.finished| ==> FinishedOk(j, t, t.finished[k]);
    }
  }

  lemma SameKept(j: Job, t: Tasks, u: Tasks)
    requires Kept(j, t) && u.store == t.store && u.cache == t.cache
    ensures Kept(j, u)
  {
  }

  lemma LaunchAccounts(t: Tasks, idx: nat, h: Digest, body: Bytes, i: nat)
    requires Accounted(t, i)
    ensures Accounted(Launch(t, idx, h, body), i)
  {
    var u := Launch(t, idx, h, body);
    if i == idx { assert u.inflight[|t.inflight|].idx == i; }
    else if k :| 0 <= k < |t.inflight| && t.inflight[k].idx == i { assert u.inflight[k].idx == i; }
  }

  lemma LaunchComes(t: Tasks, idx: nat, h: Digest, body: Bytes, d: Digest)
    ensures Coming(Launch(t, idx, h, body), d) <==> d == h || Coming(t, d)
  {
    var u := Launch(t, idx, h, body);
    if d == h { assert u.inflight[|t.inflight|].hash == d; }
    if k :| 0 <= k < |t.inflight| && t.inflight[k].hash == d { assert u.inflight[k].hash == d; }
  }

  lemma LaunchKeeps(j: Job, t: Tasks, idx: nat)
    requires Underway(j, t) && idx in j.dirty && idx < |j.nc| && !AllZero(j.nc[idx])
    ensures Underway(j, Launch(t, idx, j.hash(j.nc[idx]), j.nc[idx]))
  {
    var h, body := j.hash(j.nc[idx]), j.nc[idx];
    var u := Launch(t, idx, h, body);
    forall i | i in j.dirty
      ensures Accounted(u, i)
    {
      LaunchAccounts(t, idx, h, body, i);
    }
    forall d | d in u.claimed
      ensures d in j.listed || Coming(u, d)
    {
      LaunchComes(t, idx, h, body, d);
    }
    assert IsNew(j, h);
    hide Accounted, Coming, Kept, IsNew;
    SameKept(j, t, u);
    forall k | 0 <= k < |u.inflight|
      ensures FlightOk(j, u, u.inflight[k])
    {
      assert k < |t.inflight| ==> FlightOk(j, t, t.inflight[k]);
    }
    forall k | 0 <= k < |u.finished|
      ensures FinishedOk(j, u, u.finished[k])
    {
      assert FinishedOk(j, t, t.finished[k]);
    }
  }

  /** Every flight but the one that landed is still in the air. */
  lemma StillFlying(t: Tasks, n: nat, k: nat) returns (at: nat)
    requires n < |t.inflight| && k < |t.inflight| && k != n
    ensures at < |t.inflight| - 1 && Land(t, n).inflight[at] == t.inflight[k]
  {
    at := if k < n then k else k - 1;
  }

  lemma LandAccounts(t: Tasks, n: nat, i: nat)
    requires n < |t.inflight| && Accounted(t, i)
    ensures Accounted(Land(t, n), i)
  {
    var u := Land(t, n);
    if i == t.inflight[n].idx { assert u.finished[|t.finished|].idx == i; }
    else if k :| 0 <= k < |t.inflight| && t.inflight[k].idx == i {
      var at := StillFlying(t, n, k);
      assert u.inflight[at].idx == i;
    }
    else if k :| 0 <= k < |t.finished| && t.finished[k].idx == i { assert u.finished[k].idx == i; }
  }

  lemma LandComes(t: Tasks, n: nat, d: Digest)
    requires n < |t.inflight|
    ensures Coming(Land(t, n), d) <==> Coming(t, d)
  {
    var u := Land(t, n);
    assert forall k | 0 <= k < |u.inflight| :: u.inflight[k] == t.inflight[if k < n then k else k + 1];
    if Coming(t, d) && d !in u.store {
      var k :| 0 <= k < |t.inflight| && t.inflight[k].hash == d;
      var at := StillFlying(t, n, k);
      assert u.inflight[at].hash == d;
    }
  }

  lemma LandKeeps(j: Job, t: Tasks, n: nat)
    requires Underway(j, t) && n < |t.inflight| && Injective(j.hash)
    ensures Underway(j, Land(t, n)) && j.hash(t.inflight[n].body) == t.inflight[n].hash
  {
    var u := Land(t, n);
    assert FlightOk(j, t, t.inflight[n]);
    forall i | i in j.dirty
      ensures Accounted(u, i)
    {
      LandAccounts(t, n, i);
    }
    forall d | d in u.claimed
      ensures d in j.listed || Coming(u, d)
    {
      LandComes(t, n, d);
    }
    hide Accounted, Coming, IsNew;
    forall k | 0 <= k < |u.inflight|
      ensures FlightOk(j, u, u.inflight[k])
    {
      assert u.inflight[k] == t.inflight[if k < n then k else k + 1];
    }
    forall k | 0 <= k < |u.finished|
      ensures FinishedOk(j, u, u.finished[k])
    {
      assert k < |t.finished| ==> FinishedOk(j, t, t.finished[k]);
    }
  }

  // ---- One task -----------------------------------------------------------------------------------

  /** A rebuilt chunk is elided, known already, cached, or claimed and put. */
  function Dispatch(t: Tasks, idx: nat, prevHash: Option<Digest>, body: Bytes, hash: Bytes -> Digest,
                    sink: Sink): Tasks
  {
    if AllZero(body) then FinishNow(t, idx, None)
    else
      var h := hash(body);
      if sink.LocalCache? then FinishNow(Warm(t, h, body), idx, Some(h))
      else if prevHash == Some(h) || h in t.claimed then FinishNow(t, idx, Some(h))
      else Launch(t, idx, h, body)
  }

  lemma DispatchKeeps(j: Job, t: Tasks, idx: nat, prevHash: Option<Digest>)
    requires Underway(j, t) && idx in j.dirty && idx < |j.nc| && (prevHash.Some? ==> prevHash.value in t.claimed)
    ensures Underway(j, Dispatch(t, idx, prevHash, j.nc[idx], j.hash, j.sink))
  {
    hide Underway;
    var h := j.hash(j.nc[idx]);
    if AllZero(j.nc[idx]) {
      FinishKeeps(j, t, idx);
    } else if j.sink.LocalCache? {
      WarmKeeps(j, t, h, j.nc[idx]);
      FinishKeeps(j, Warm(t, h, j.nc[idx]), idx);
    } else if prevHash == Some(h) || h in t.claimed {
      FinishKeeps(j, t, idx);
    } else {
      LaunchKeeps(j, t, idx);
    }
  }

  /** What every schedule keeps, whatever the previous manifest and the diff are. */
  ghost predicate Tidy(t: Tasks, listed: set<Digest>, store0: map<Digest, Bytes>, sink: Sink) {
    && PutOnce(t.puts, listed, t.claimed) && Booked(t, store0)
    && (sink.LocalCache? ==> t.store == store0 && t.puts == [] && t.inflight == [])
  }

  lemma DispatchTidy(t: Tasks, idx: nat, prevHash: Option<Digest>, body: Bytes, hash: Bytes -> Digest, sink: Sink,
                     listed: set<Digest>, store0: map<Digest, Bytes>)
    requires Tidy(t, listed, store0, sink)
    ensures var u := Dispatch(t, idx, prevHash, body, hash, sink);
            Tidy(u, listed, store0, sink) && u.todo == t.todo - {idx}
  {
    var u := Dispatch(t, idx, prevHash, body, hash, sink);
    if u.puts != t.puts {
      forall d
        ensures Coming(u, d) <==> d in store0 || d in u.puts
      {
        LaunchComes(t, idx, hash(body), body, d);
      }
    } else {
      assert forall d :: Coming(u, d) <==> Coming(t, d);
    }
    hide Coming;
  }

  lemma LandTidy(t: Tasks, n: nat, listed: set<Digest>, store0: map<Digest, Bytes>)
    requires n < |t.inflight| && Tidy(t, listed, store0, Durable)
    ensures Tidy(Land(t, n), listed, store0, Durable)
  {
    forall d { LandComes(t, n, d); }
    hide Coming;
  }

  lemma CacheTidy(t: Tasks, u: Tasks, listed: set<Digest>, store0: map<Digest, Bytes>, sink: Sink)
    requires Tidy(t, listed, store0, sink) && u == t.(cache := u.cache)
    ensures Tidy(u, listed, store0, sink)
  {
    assert forall d :: Coming(u, d) <==> Coming(t, d);
    hide Coming;
  }

  lemma {:induction false} AtListed(refs: seq<ChunkRef>, offset: nat)
    ensures At(refs, offset).Some? ==> At(refs, offset).value in Listed(refs)
  {
    if |refs| > 0 && refs[|refs| - 1].offset != offset {
      AtListed(refs[..|refs| - 1], offset);
      assert Listed(refs[..|refs| - 1]) <= Listed(refs);
    } else if |refs| > 0 {
      assert refs[|refs| - 1].hash in Listed(refs);
    }
  }

  /** Every digest of a chunk that holds data is in `known`. */
  ghost predicate Among(chunks: seq<Bytes>, hash: Bytes -> Digest, known: set<Digest>) {
    forall i | 0 <= i < |chunks| && !AllZero(chunks[i]) :: hash(chunks[i]) in known
  }

  /** The previous capture and the change since, as `Sound` has it. Each of its chunks is in the
      store or the cache unless it is `lost`, and in the store unless it is `owed`. */
  ghost predicate Given(m: Manifest, prev: Bytes, next: Bytes, ranges: seq<Range>, diff: Bytes, hash: Bytes -> Digest,
                        store: map<Digest, Bytes>, cache: map<Digest, Bytes>, lost: set<Digest>, owed: set<Digest>)
  {
    && Sound(m, prev, next, ranges, diff, hash) && Honest(store, hash) && Honest(cache, hash)
    && Among(Cut(m.Grid(), prev), hash, store.Keys + cache.Keys + lost)
    && Among(Cut(m.Grid(), prev), hash, store.Keys + owed)
  }

  /** The job that an update of `m` is. */
  ghost function JobOf(m: Manifest, next: Bytes, hash: Bytes -> Digest, sink: Sink, dirty: set<nat>,
                       store0: map<Digest, Bytes>, cache0: map<Digest, Bytes>, swept: set<Digest>): Job
    requires m.Grid().Valid() && |next| == m.totalBytes
  {
    Job(Cut(m.Grid(), next), hash, sink, dirty, Listed(m.chunks), store0, cache0, swept)
  }

  lemma ViewHonest(j: Job, t: Tasks)
    requires Underway(j, t)
    ensures Honest(t.View(), j.hash)
  {
  }

  /** Reading a previous chunk fills the cache, and can fail only for what the cache lost. */
  lemma ReadThrough(pc: seq<Bytes>, j: Job, t: Tasks, lost: set<Digest>, idx: nat, h: Digest)
    requires Underway(j, t) && Among(pc, j.hash, j.store0.Keys + j.cache0.Keys + lost)
    requires RefAt(pc, j.hash, idx) == Some(h)
    ensures if h in t.View() then Underway(j, Warm(t, h, t.View()[h])) else h in lost + j.swept
  {
    ViewHonest(j, t);
    assert Kept(j, t);
    if h in t.View() {
      hide Underway;
      WarmKeeps(j, t, h, t.View()[h]);
    }
  }

  /** What a task leaves behind once its slice is rebuilt. */
  function AfterTask(t: Tasks, idx: nat, prevHash: Option<Digest>, body: Bytes, hash: Bytes -> Digest,
                     sink: Sink): Tasks
    requires prevHash.Some? ==> prevHash.value in t.View()
  {
    var u := if prevHash.Some? then Warm(t, prevHash.value, t.View()[prevHash.value]) else t;
    Dispatch(u, idx, prevHash, body, hash, sink)
  }

  lemma AfterTidy(t: Tasks, idx: nat, prevHash: Option<Digest>, body: Bytes, hash: Bytes -> Digest, sink: Sink,
                  listed: set<Digest>, store0: map<Digest, Bytes>)
    requires (prevHash.Some? ==> prevHash.value in t.View()) && Tidy(t, listed, store0, sink)
    ensures var u := AfterTask(t, idx, prevHash, body, hash, sink);
            Tidy(u, listed, store0, sink) && u.todo == t.todo - {idx}
  {
    hide Tidy, Dispatch;
    var u := if prevHash.Some? then Warm(t, prevHash.value, t.View()[prevHash.value]) else t;
    CacheTidy(t, u, listed, store0, sink);
    DispatchTidy(u, idx, prevHash, body, hash, sink, listed, store0);
  }

  lemma AfterKeeps(pc: seq<Bytes>, j: Job, t: Tasks, lost: set<Digest>, idx: nat, prevHash: Option<Digest>)
    requires Underway(j, t) && idx in j.dirty && idx < |j.nc| && (prevHash.Some? ==> prevHash.value in t.claimed)
    requires Among(pc, j.hash, j.store0.Keys + j.cache0.Keys + lost) && prevHash == RefAt(pc, j.hash, idx)
    ensures if prevHash.Some? && prevHash.value !in t.View() then prevHash.value in lost + j.swept
            else Underway(j, AfterTask(t, idx, prevHash, j.nc[idx], j.hash, j.sink))
  {
    hide Underway, Among, RefAt, Dispatch;
    if prevHash.Some? { ReadThrough(pc, j, t, lost, idx, prevHash.value); }
    if prevHash.Some? ==> prevHash.value in t.View() {
      var u := if prevHash.Some? then Warm(t, prevHash.value, t.View()[prevHash.value]) else t;
      DispatchKeeps(j, u, idx, prevHash);
    }
  }

  method StartTask(m: Manifest, idx: nat, diff: Bytes, ranges: seq<Range>, hash: Bytes -> Digest, sink: Sink, t: Tasks,
                   ghost j: Job, ghost prev: Bytes, ghost next: Bytes, ghost lost: set<Digest>)
    returns (slice: Slice, t': Tasks)
    requires m.Grid().Valid() && idx < m.Grid().Count() && m.Grid().Has(idx)
    requires Tidy(t, Listed(m.chunks), j.store0, sink)
    ensures Tidy(t', Listed(m.chunks), j.store0, sink)
    ensures if slice.Rebuilt? then t'.todo == t.todo - {idx} else t' == t
    ensures Sound(m, prev, next, ranges, diff, hash) && Underway(j, t) && idx in j.dirty
            && j == JobOf(m, next, hash, sink, j.dirty, j.store0, j.cache0, j.swept)
            && Among(Cut(m.Grid(), prev), hash, j.store0.Keys + j.cache0.Keys + lost) ==>
              && (slice.Rebuilt? || (slice.Missing? && slice.hash in lost + j.swept))
              && Underway(j, t')
  {
    t' := t;
    var prevHash := At(m.chunks, idx * m.chunkSize);
    slice := RebuildChunk(idx * m.chunkSize, m.Grid().Len(idx), prevHash, t.View(), diff, ranges);
    assert RebuiltFrom(m.Grid(), prevHash, idx, diff, ranges, t.View(), slice);
    hide At, Cut, ByteAfter, Seed, Dirty, Among, AfterTask, Underway;
    if Sound(m, prev, next, ranges, diff, hash) && Underway(j, t) && idx in j.dirty
       && j == JobOf(m, next, hash, sink, j.dirty, j.store0, j.cache0, j.swept)
       && Among(Cut(m.Grid(), prev), hash, j.store0.Keys + j.cache0.Keys + lost)
    {
      ViewHonest(j, t);
      RebuiltIsNext(m, idx, diff, ranges, hash, t.View(), prev, next, slice);
      AtListed(m.chunks, idx * m.chunkSize);
      AfterKeeps(Cut(m.Grid(), prev), j, t, lost, idx, prevHash);
    }
    hide Sound, Tidy, Listed;
    if slice.Rebuilt? {
      AfterTidy(t, idx, prevHash, slice.bytes, hash, sink, Listed(m.chunks), j.store0);
      t' := AfterTask(t, idx, prevHash, slice.bytes, hash, sink);
    }
  }

  // ---- The whole update ---------------------------------------------------------------------------

  lemma StartsUnderway(j: Job)
    requires Honest(j.store0, j.hash) && Honest(j.cache0, j.hash)
    ensures Underway(j, Tasks(j.dirty, [], [], j.store0, j.cache0, j.listed, []))
  {
    var t := Tasks(j.dirty, [], [], j.store0, j.cache0, j.listed, []);
    assert forall i | i in j.dirty :: Accounted(t, i);
  }

  lemma StartsTidy(dirty: set<nat>, store0: map<Digest, Bytes>, cache0: map<Digest, Bytes>, listed: set<Digest>,
                   sink: Sink)
    ensures Tidy(Tasks(dirty, [], [], store0, cache0, listed, []), listed, store0, sink)
  {
  }

  /** Runs every task, at most so many at a time, in any order of starts, completions and
      losses of the cache. */
  method RunTasks(m: Manifest, dirty: set<nat>, diff: Bytes, ranges: seq<Range>, hash: Bytes -> Digest, sink: Sink,
                  lands: Bytes -> bool, store0: map<Digest, Bytes>, cache0: map<Digest, Bytes>, swept: set<Digest>,
                  ghost prev: Bytes, ghost next: Bytes, ghost lost: set<Digest>, ghost owed: set<Digest>)
    returns (failed: Option<RechunkResult>, t: Tasks)
    requires m.Grid().Valid() && forall idx | idx in dirty :: idx < m.Grid().Count()
    ensures failed.None? ==> t.todo == {} && t.inflight == [] && Tidy(t, Listed(m.chunks), store0, sink)
    ensures failed.Some? ==>
              || failed.value.ChunkMissing? || failed.value.DiffTooShort?
              || (failed.value.PutLost? && sink.Durable? && !lands(failed.value.body))
    ensures Given(m, prev, next, ranges, diff, hash, store0, cache0, lost, owed) ==>
              && |next| == m.totalBytes
              && (failed.Some? ==>
                    failed.value.PutLost? || (failed.value.ChunkMissing? && failed.value.hash in lost + swept))
              && Underway(JobOf(m, next, hash, sink, dirty, store0, cache0, swept), t)
  {
    t := Tasks(dirty, [], [], store0, cache0, Listed(m.chunks), []);
    failed := None;
    ghost var given := Given(m, prev, next, ranges, diff, hash, store0, cache0, lost, owed);
    ghost var j := if given then JobOf(m, next, hash, sink, dirty, store0, cache0, swept)
                   else Job([], hash, sink, dirty, {}, store0, cache0, swept);
    if given { StartsUnderway(j); }
    StartsTidy(dirty, store0, cache0, Listed(m.chunks), sink);
    hide Underway, Tidy, Sound, Cut, Listed, Among, Honest, Injective;
    while t.todo != {} || t.inflight != []
      invariant t.todo <= dirty && Tidy(t, Listed(m.chunks), store0, sink)
      invariant given ==> Underway(j, t)
      decreases t.todo, |t.inflight|, |t.cache|
    {
      if {
        case t.todo != {} && |t.inflight| < SPARSE_RECHUNK_CONCURRENCY =>
          var idx :| idx in t.todo;
          CountIff(m.Grid(), idx);
          var slice, u := StartTask(m, idx, diff, ranges, hash, sink, t, j, prev, next, lost);
          if slice.Missing? {
            return Some(ChunkMissing(slice.hash)), t;
          }
          if slice.DiffShort? {
            return Some(DiffTooShort), t;
          }
          t := u;
        case t.inflight != [] =>
          var n :| 0 <= n < |t.inflight|;
          OnlyDurableFlies(t, Listed(m.chunks), store0, sink);
          if !lands(t.inflight[n].body) {
            return Some(PutLost(t.inflight[n].body)), t;
          }
          t := LandAny(j, t, n, given, Listed(m.chunks), store0);
        case t.cache.Keys * swept != {} =>
          var h :| h in t.cache.Keys * swept;
          if given { EvictKeeps(j, t, h); }
          CacheTidy(t, Evict(t, h), Listed(m.chunks), store0, sink);
          assert Evict(t, h).cache.Keys == t.cache.Keys - {h};
          t := Evict(t, h);
      }
    }
  }

  lemma OnlyDurableFlies(t: Tasks, listed: set<Digest>, store0: map<Digest, Bytes>, sink: Sink)
    requires Tidy(t, listed, store0, sink) && t.inflight != []
    ensures sink.Durable?
  {
  }

  /** A put that lands warms the cache too. */
  method LandAny(ghost j: Job, t: Tasks, n: nat, ghost given: bool, ghost listed: set<Digest>,
                 ghost store0: map<Digest, Bytes>)
    returns (u: Tasks)
    requires n < |t.inflight| && Tidy(t, listed, store0, Durable)
    requires given ==> Underway(j, t) && Injective(j.hash)
    ensures Tidy(u, listed, store0, Durable) && (given ==> Underway(j, u))
    ensures u.todo == t.todo && |u.inflight| < |t.inflight|
  {
    hide Underway, Tidy, Injective;
    var f := t.inflight[n];
    LandTidy(t, n, listed, store0);
    CacheTidy(Land(t, n), Warm(Land(t, n), f.hash, f.body), listed, store0, Durable);
    if given {
      LandKeeps(j, t, n);
      WarmKeeps(j, Land(t, n), f.hash, f.body);
    }
    u := Warm(Land(t, n), f.hash, f.body);
  }

  /** The chunks that some result is about. */
  function Rebuilds(finished: seq<Finished>): set<nat> {
    set k | 0 <= k < |finished| :: finished[k].idx
  }

  /** The offsets whose chunk was rebuilt and is not zero. */
  function NewOffsets(finished: seq<Finished>, size: nat): set<nat> {
    set k | 0 <= k < |finished| && finished[k].hash.Some? :: finished[k].idx * size
  }

  /** The results are what the new image has at their chunks. */
  ghost predicate ResultsOk(finished: seq<Finished>, nc: seq<Bytes>, hash: Bytes -> Digest) {
    forall k | 0 <= k < |finished| :: finished[k].idx < |nc| && finished[k].hash == RefAt(nc, hash, finished[k].idx)
  }

  /** Folds the results, in completion order, into the previous chunk list. */
  method FoldResults(size: nat, chunks: seq<ChunkRef>, finished: seq<Finished>, ghost pc: seq<Bytes>,
                     ghost nc: seq<Bytes>, ghost hash: Bytes -> Digest)
    returns (tree: seq<ChunkRef>, rebuilt: set<nat>)
    requires size > 0
    ensures rebuilt == NewOffsets(finished, size)
    ensures Tracks(size, pc, nc, hash, {}, chunks, |pc| * size) && |pc| == |nc| && ResultsOk(finished, nc, hash)
            ==> Tracks(size, pc, nc, hash, Rebuilds(finished), tree, |pc| * size)
  {
    tree, rebuilt := chunks, {};
    ghost var given := Tracks(size, pc, nc, hash, {}, chunks, |pc| * size) && |pc| == |nc|
                       && ResultsOk(finished, nc, hash);
    assert finished[..0] == [] && Rebuilds([]) == {} && NewOffsets([], size) == {};
    hide Tracks, ResultsOk, Rebuilds, NewOffsets, TreeInsert, TreeRemove;
    for n := 0 to |finished|
      invariant rebuilt == NewOffsets(finished[..n], size)
      invariant given ==> Tracks(size, pc, nc, hash, Rebuilds(finished[..n]), tree, |pc| * size)
    {
      var f := finished[n];
      if given { FoldTracks(size, pc, nc, hash, finished, n, tree); }
      NewOffsetsSnoc(finished, n, size);
      match f.hash {
        case Some(h) =>
          tree, rebuilt := TreeInsert(tree, ChunkRef(f.idx * size, h)), rebuilt + {f.idx * size};
        case None =>
          tree := TreeRemove(tree, f.idx * size);
      }
    }
    assert finished[..|finished|] == finished;
  }

  lemma FoldTracks(size: nat, pc: seq<Bytes>, nc: seq<Bytes>, hash: Bytes -> Digest, finished: seq<Finished>, n: nat,
                   tree: seq<ChunkRef>)
    requires size > 0 && n < |finished| && |pc| == |nc| && ResultsOk(finished, nc, hash)
    requires Tracks(size, pc, nc, hash, Rebuilds(finished[..n]), tree, |pc| * size)
    ensures var f := finished[n];
            Tracks(size, pc, nc, hash, Rebuilds(finished[..n + 1]),
                   if f.hash.Some? then TreeInsert(tree, ChunkRef(f.idx * size, f.hash.value))
                   else TreeRemove(tree, f.idx * size),
                   |pc| * size)
  {
    var f := finished[n];
    MulMono(f.idx + 1, |pc|, size);
    assert (f.idx + 1) * size == f.idx * size + size;
    RebuildsSnoc(finished, n);
    RebuiltTracks(size, pc, nc, hash, Rebuilds(finished[..n]), tree, |pc| * size, f.idx);
    hide Tracks, TreeInsert, TreeRemove, Rebuilds;
  }

  lemma NewOffsetsSnoc(finished: seq<Finished>, n: nat, size: nat)
    requires n < |finished|
    ensures NewOffsets(finished[..n + 1], size)
            == if finished[n].hash.Some? then NewOffsets(finished[..n], size) + {finished[n].idx * size}
               else NewOffsets(finished[..n], size)
  {
    var a, b := finished[..n + 1], finished[..n];
    assert a[n] == finished[n] && forall k | 0 <= k < n :: a[k] == b[k];
    forall o | o in NewOffsets(b, size)
      ensures o in NewOffsets(a, size)
    {
      var k :| 0 <= k < n && b[k].hash.Some? && o == b[k].idx * size;
      assert a[k].hash.Some? && o == a[k].idx * size;
    }
    if finished[n].hash.Some? { assert a[n].idx * size in NewOffsets(a, size); }
  }

  lemma RebuildsSnoc(finished: seq<Finished>, n: nat)
    requires n < |finished|
    ensures Rebuilds(finished[..n + 1]) == Rebuilds(finished[..n]) + {finished[n].idx}
  {
    var a, b := finished[..n + 1], finished[..n];
    assert a[n] == finished[n] && forall k | 0 <= k < n :: a[k] == b[k];
    forall i
      ensures i in Rebuilds(a) <==> i in Rebuilds(b) + {finished[n].idx}
    {
      if i in Rebuilds(b) {
        var k :| 0 <= k < n && b[k].idx == i;
        assert a[k].idx == i;
      }
    }
  }

  /** The hashes at rebuilt offsets, in offset order. */
  function NewHashes(tree: seq<ChunkRef>, rebuilt: set<nat>): seq<Digest> {
    if |tree| == 0 then []
    else
      var init, last := NewHashes(tree[..|tree| - 1], rebuilt), tree[|tree| - 1];
      if last.offset in rebuilt then init + [last.hash] else init
  }

  lemma {:induction false} NewHashesHas(tree: seq<ChunkRef>, rebuilt: set<nat>, r: ChunkRef)
    requires r in tree && r.offset in rebuilt
    ensures r.hash in NewHashes(tree, rebuilt)
  {
    var init, last := tree[..|tree| - 1], tree[|tree| - 1];
    if r != last {
      assert r in init;
      NewHashesHas(init, rebuilt, r);
    }
  }

  /** The hashes of the touched chunks below `n` that hold data, in offset order. */
  function TouchedHashes(nc: seq<Bytes>, hash: Bytes -> Digest, dirty: set<nat>, n: nat): seq<Digest>
    requires n <= |nc|
  {
    if n == 0 then []
    else
      var init := TouchedHashes(nc, hash, dirty, n - 1);
      if n - 1 in dirty && !AllZero(nc[n - 1]) then init + [hash(nc[n - 1])] else init
  }

  lemma {:induction false} TouchedHas(nc: seq<Bytes>, hash: Bytes -> Digest, dirty: set<nat>, n: nat, i: nat)
    requires i < n <= |nc| && i in dirty && !AllZero(nc[i])
    ensures hash(nc[i]) in TouchedHashes(nc, hash, dirty, n)
  {
    if i < n - 1 { TouchedHas(nc, hash, dirty, n - 1, i); }
  }

  /** The chunks of the image that some range touches. */
  ghost function TouchedBy(g: Grid, ranges: seq<Range>): set<nat>
    requires g.Valid()
  {
    set idx: nat | idx < g.Count() && Touched(g, ranges, idx)
  }

  lemma OffsetNew(finished: seq<Finished>, size: nat, nc: seq<Bytes>, hash: Bytes -> Digest, i: nat)
    requires size > 0 && ResultsOk(finished, nc, hash) && i < |nc| && !AllZero(nc[i])
    ensures i * size in NewOffsets(finished, size) <==> i in Rebuilds(finished)
  {
    if i in Rebuilds(finished) {
      var k :| 0 <= k < |finished| && finished[k].idx == i;
      assert finished[k].hash.Some? && finished[k].idx * size == i * size;
    }
    if i * size in NewOffsets(finished, size) {
      var k :| 0 <= k < |finished| && finished[k].hash.Some? && finished[k].idx * size == i * size;
      if finished[k].idx != i { MulDistinct(finished[k].idx, i, size); }
    }
  }

  /** The new hashes are those of the touched chunks that hold data, each at its place. */
  lemma {:induction false} NewHashesAre(finished: seq<Finished>, size: nat, nc: seq<Bytes>, hash: Bytes -> Digest,
                                        n: nat)
    requires size > 0 && ResultsOk(finished, nc, hash) && n <= |nc|
    ensures NewHashes(RefsTo(size, nc, hash, n), NewOffsets(finished, size))
            == TouchedHashes(nc, hash, Rebuilds(finished), n)
  {
    if n > 0 {
      NewHashesAre(finished, size, nc, hash, n - 1);
      var init := RefsTo(size, nc, hash, n - 1);
      if !AllZero(nc[n - 1]) {
        OffsetNew(finished, size, nc, hash, n - 1);
        assert (init + [ChunkRef((n - 1) * size, hash(nc[n - 1]))])[..|init|] == init;
      }
      hide ResultsOk, NewOffsets, Rebuilds;
    }
  }

  /** Once all tasks are through, the results are about the dirty chunks, and what is claimed
      is durable unless the previous manifest lists it. */
  lemma AllRebuilt(j: Job, t: Tasks)
    requires Underway(j, t) && t.todo == {} && t.inflight == []
    ensures Rebuilds(t.finished) == j.dirty && ResultsOk(t.finished, j.nc, j.hash)
    ensures forall h | h in t.claimed :: h in j.listed || h in t.store
  {
    forall i | i in j.dirty
      ensures i in Rebuilds(t.finished)
    {
      assert Accounted(t, i);
    }
    assert forall k | 0 <= k < |t.finished| :: FinishedOk(j, t, t.finished[k]);
    forall h | h in t.claimed
      ensures h in j.listed || h in t.store
    {
      assert h in j.listed || Coming(t, h);
    }
  }

  /** The previous manifest lists exactly the digests of its chunks that hold data. */
  lemma ListedIs(m: Manifest, prev: Bytes, hash: Bytes -> Digest, known: set<Digest>)
    requires m.Grid().Valid() && |prev| == m.totalBytes && m == Canonical(m.kind, m.Grid(), prev, hash)
    ensures Among(Cut(m.Grid(), prev), hash, known) <==> Listed(m.chunks) <= known
  {
    var g := m.Grid();
    var pc := Cut(g, prev);
    hide Cut, RefsTo;
    forall i | 0 <= i < |pc| && !AllZero(pc[i])
      ensures hash(pc[i]) in Listed(m.chunks)
    {
      var r := ChunkRef(i * g.size, hash(pc[i]));
      assert IsRef(g.size, pc, hash, i, r);
      RefsToMembers(g.size, pc, hash, g.Count(), r);
    }
    if Among(pc, hash, known) {
      forall k | 0 <= k < |m.chunks|
        ensures m.chunks[k].hash in known
      {
        RefsToMembers(g.size, pc, hash, g.Count(), m.chunks[k]);
      }
    }
  }

  /** A chunk with data is one the previous manifest lists, or durable, or went to the cache. */
  lemma ChunkPlaced(j: Job, t: Tasks, pc: seq<Bytes>, i: nat)
    requires Underway(j, t) && t.todo == {} && t.inflight == []
    requires |pc| == |j.nc| && i < |j.nc| && !AllZero(j.nc[i]) && (i !in j.dirty ==> pc[i] == j.nc[i])
    requires Among(pc, j.hash, j.listed)
    ensures j.hash(j.nc[i]) in j.listed || j.hash(j.nc[i]) in t.store
            || (j.sink.LocalCache? && i in j.dirty && j.hash(j.nc[i]) in t.cache.Keys + j.swept)
  {
    AllRebuilt(j, t);
    if i in j.dirty {
      var k :| 0 <= k < |t.finished| && t.finished[k].idx == i;
      assert FinishedOk(j, t, t.finished[k]);
    }
  }

  /** What an update promises about the new image. */
  ghost predicate Captured(m: Manifest, ranges: seq<Range>, next: Bytes, hash: Bytes -> Digest, sink: Sink,
                           store0: map<Digest, Bytes>, lost: set<Digest>, owed: set<Digest>, swept: set<Digest>,
                           r: RechunkResult)
    requires r.Next? && m.Grid().Valid() && |next| == m.totalBytes
  {
    var nc := Cut(m.Grid(), next);
    && r.manifest == Canonical(m.kind, m.Grid(), next, hash)
    && Honest(r.store, hash) && Honest(r.cache, hash) && Extends(store0, r.store)
    // Every chunk can be read, but for what the cache lost.
    && Among(nc, hash, r.store.Keys + r.cache.Keys + (lost + swept))
    // Every chunk is durable, but for what is owed: a local capture owes its new hashes.
    && Among(nc, hash, r.store.Keys + (owed + Debt(sink, r.newHashes)))
    // The new hashes are those of the rebuilt chunks that hold data, in offset order.
    && r.newHashes == TouchedHashes(nc, hash, TouchedBy(m.Grid(), ranges), |nc|)
    && (forall c | c in r.manifest.chunks :: c in m.chunks || c.hash in r.newHashes)
    && (forall h | h in r.puts :: h in r.newHashes)
  }

  function Debt(sink: Sink, newHashes: seq<Digest>): set<Digest> {
    if sink.LocalCache? then set h | h in newHashes else {}
  }

  /** A listed chunk is a carried-over one or among the new hashes. */
  lemma ListedOrNew(size: nat, pc: seq<Bytes>, nc: seq<Bytes>, hash: Bytes -> Digest, dirty: set<nat>, r: ChunkRef)
    requires size > 0 && |pc| == |nc| && r in RefsTo(size, nc, hash, |nc|)
    requires forall i | 0 <= i < |pc| && i !in dirty :: pc[i] == nc[i]
    ensures r in RefsTo(size, pc, hash, |pc|) || r.hash in TouchedHashes(nc, hash, dirty, |nc|)
  {
    RefsToMembers(size, nc, hash, |nc|, r);
    var i :| 0 <= i < |nc| && IsRef(size, nc, hash, i, r);
    if i in dirty {
      TouchedHas(nc, hash, dirty, |nc|, i);
    } else {
      assert IsRef(size, pc, hash, i, r);
      RefsToMembers(size, pc, hash, |pc|, r);
    }
  }

  lemma PutsAreNew(j: Job, t: Tasks)
    requires Underway(j, t)
    ensures forall h | h in t.puts :: h in TouchedHashes(j.nc, j.hash, j.dirty, |j.nc|)
  {
    forall k | 0 <= k < |t.puts|
      ensures t.puts[k] in TouchedHashes(j.nc, j.hash, j.dirty, |j.nc|)
    {
      assert IsNew(j, t.puts[k]);
      var idx :| idx in j.dirty && idx < |j.nc| && !AllZero(j.nc[idx]) && t.puts[k] == j.hash(j.nc[idx]);
      TouchedHas(j.nc, j.hash, j.dirty, |j.nc|, idx);
    }
  }

  /** Where every chunk with data is once the tasks are through. */
  lemma ChunksHeld(j: Job, t: Tasks, pc: seq<Bytes>, lost: set<Digest>, owed: set<Digest>)
    requires Underway(j, t) && t.todo == {} && t.inflight == []
    requires |pc| == |j.nc| && (forall i | 0 <= i < |pc| && i !in j.dirty :: pc[i] == j.nc[i])
    requires Among(pc, j.hash, j.listed)
    requires j.listed <= j.store0.Keys + j.cache0.Keys + lost && j.listed <= j.store0.Keys + owed
    ensures Among(j.nc, j.hash, t.store.Keys + t.cache.Keys + (lost + j.swept))
    ensures Among(j.nc, j.hash, t.store.Keys + (owed + Debt(j.sink, TouchedHashes(j.nc, j.hash, j.dirty, |j.nc|))))
  {
    forall i | 0 <= i < |j.nc| && !AllZero(j.nc[i])
      ensures j.hash(j.nc[i]) in t.store.Keys + t.cache.Keys + (lost + j.swept)
      ensures j.hash(j.nc[i]) in t.store.Keys + (owed + Debt(j.sink, TouchedHashes(j.nc, j.hash, j.dirty, |j.nc|)))
    {
      ChunkPlaced(j, t, pc, i);
      if i in j.dirty { TouchedHas(j.nc, j.hash, j.dirty, |j.nc|, i); }
      hide TouchedHashes, Among;
    }
  }

  /** The folded list is the canonical one, and the new hashes are those of the touched chunks. */
  lemma FoldedIs(m: Manifest, prev: Bytes, next: Bytes, ranges: seq<Range>, diff: Bytes, j: Job, t: Tasks,
                 tree: seq<ChunkRef>)
    requires Sound(m, prev, next, ranges, diff, j.hash) && |next| == m.totalBytes
    requires j.nc == Cut(m.Grid(), next) && j.dirty == TouchedBy(m.Grid(), ranges)
    requires Rebuilds(t.finished) == j.dirty && ResultsOk(t.finished, j.nc, j.hash)
    requires var pc := Cut(m.Grid(), prev);
             Tracks(m.chunkSize, pc, j.nc, j.hash, Rebuilds(t.finished), tree, |pc| * m.chunkSize)
    ensures m.(chunks := tree) == Canonical(m.kind, m.Grid(), next, j.hash)
    ensures NewHashes(tree, NewOffsets(t.finished, m.chunkSize)) == TouchedHashes(j.nc, j.hash, j.dirty, |j.nc|)
    ensures forall i | 0 <= i < |Cut(m.Grid(), prev)| && i !in j.dirty :: Cut(m.Grid(), prev)[i] == j.nc[i]
  {
    var g := m.Grid();
    var pc := Cut(g, prev);
    assert |pc| == |j.nc| == g.Count();
    hide Cut, ResultsOk, Rebuilds, NewHashes, NewOffsets, TouchedHashes, Tracks, Written, RefsTo;
    forall i | 0 <= i < |pc| && i !in j.dirty
      ensures pc[i] == j.nc[i]
    {
      CleanChunk(g, ranges, diff, prev, next, i);
    }
    DoneIsCanonical(g.size, pc, j.nc, j.hash, Rebuilds(t.finished), tree, |pc| * g.size);
    NewHashesAre(t.finished, g.size, j.nc, j.hash, |j.nc|);
  }

  /** Every listed chunk of the new manifest is carried over or new. */
  lemma CarriedOrNew(m: Manifest, prev: Bytes, next: Bytes, hash: Bytes -> Digest, dirty: set<nat>, c: ChunkRef)
    requires m.Grid().Valid() && |prev| == |next| == m.totalBytes && m == Canonical(m.kind, m.Grid(), prev, hash)
    requires c in Canonical(m.kind, m.Grid(), next, hash).chunks
    requires var pc, nc := Cut(m.Grid(), prev), Cut(m.Grid(), next);
             forall i | 0 <= i < |pc| && i !in dirty :: pc[i] == nc[i]
    ensures c in m.chunks || c.hash in TouchedHashes(Cut(m.Grid(), next), hash, dirty, |Cut(m.Grid(), next)|)
  {
    hide Cut, RefsTo, TouchedHashes;
    ListedOrNew(m.chunkSize, Cut(m.Grid(), prev), Cut(m.Grid(), next), hash, dirty, c);
  }

  lemma EndsCaptured(m: Manifest, prev: Bytes, next: Bytes, ranges: seq<Range>, diff: Bytes, j: Job, t: Tasks,
                     tree: seq<ChunkRef>, rebuilt: set<nat>, lost: set<Digest>, owed: set<Digest>)
    requires Given(m, prev, next, ranges, diff, j.hash, j.store0, j.cache0, lost, owed) && |next| == m.totalBytes
    requires j == JobOf(m, next, j.hash, j.sink, TouchedBy(m.Grid(), ranges), j.store0, j.cache0, j.swept)
    requires Underway(j, t) && t.todo == {} && t.inflight == []
    requires var pc := Cut(m.Grid(), prev);
             Tracks(m.chunkSize, pc, j.nc, j.hash, Rebuilds(t.finished), tree, |pc| * m.chunkSize)
    requires rebuilt == NewOffsets(t.finished, m.chunkSize)
    ensures Captured(m, ranges, next, j.hash, j.sink, j.store0, lost, owed, j.swept,
                     Next(m.(chunks := tree), t.store, t.cache, t.puts, NewHashes(tree, rebuilt)))
  {
    var pc := Cut(m.Grid(), prev);
    assert Kept(j, t) && |pc| == |j.nc|;
    AllRebuilt(j, t);
    ListedIs(m, prev, j.hash, Listed(m.chunks));
    ListedIs(m, prev, j.hash, j.store0.Keys + j.cache0.Keys + lost);
    ListedIs(m, prev, j.hash, j.store0.Keys + owed);
    hide Cut, Underway, TouchedBy, Listed, Among, ResultsOk, Rebuilds, NewHashes, NewOffsets, TouchedHashes, Honest,
         Extends, Tracks, Written, RefsTo, Debt;
    FoldedIs(m, prev, next, ranges, diff, j, t, tree);
    ChunksHeld(j, t, pc, lost, owed);
    PutsAreNew(j, t);
    forall c | c in tree
      ensures c in m.chunks || c.hash in NewHashes(tree, rebuilt)
    {
      CarriedOrNew(m, prev, next, j.hash, j.dirty, c);
    }
  }

  /** Builds the next manifest from the dirty chunks only, in any order of starts and
      completions. No object is put twice, or put although the previous manifest lists it, and
      the store gains what is put. */
  method UpdateForDirtyRanges(m: Manifest, diff: Bytes, ranges: seq<Range>, store0: map<Digest, Bytes>,
                              cache0: map<Digest, Bytes>, sink: Sink, swept: set<Digest>, lands: Bytes -> bool,
                              hash: Bytes -> Digest, ghost prev: Bytes, ghost next: Bytes, ghost lost: set<Digest>,
                              ghost owed: set<Digest>)
    returns (r: RechunkResult)
    ensures r.BadManifest? <==> !WellFormed(m)
    ensures r.PutLost? ==> sink.Durable? && !lands(r.body)
    ensures r.Next? ==> PutOnce(r.puts, Listed(m.chunks), Listed(m.chunks) + set h | h in r.puts)
    ensures r.Next? ==> r.store.Keys == store0.Keys + set h | h in r.puts
    ensures r.Next? && sink.LocalCache? ==> r.store == store0 && r.puts == []
    ensures Given(m, prev, next, ranges, diff, hash, store0, cache0, lost, owed) ==>
              && |next| == m.totalBytes
              && (r.Next? || r.PutLost? || (r.ChunkMissing? && r.hash in lost + swept))
              && (r.Next? ==> Captured(m, ranges, next, hash, sink, store0, lost, owed, swept, r))
  {
    var v := Validate(m);
    ghost var given := Given(m, prev, next, ranges, diff, hash, store0, cache0, lost, owed);
    if given { CanonicalWellFormed(m.kind, m.Grid(), prev, hash); }
    hide Given, Captured, Underway, Tracks, Canonical, Cut, Listed, Rebuilds, NewHashes, NewOffsets, ResultsOk, JobOf,
         TouchedBy;
    if v.Malformed? {
      return BadManifest(v.error);
    }
    var g := m.Grid();
    var dirty := DirtyChunks(g, ranges);
    var failed, t := RunTasks(m, dirty, diff, ranges, hash, sink, lands, store0, cache0, swept, prev, next, lost, owed);
    if failed.Some? {
      return failed.value;
    }
    TidyEnd(t, Listed(m.chunks), store0, sink);
    ghost var pc, nc := if given then Cut(g, prev) else [], if given then Cut(g, next) else [];
    ghost var j := if given then JobOf(m, next, hash, sink, dirty, store0, cache0, swept)
                   else Job([], hash, sink, dirty, {}, store0, cache0, swept);
    if given { ReadyToFold(m, prev, next, ranges, diff, j, t, lost, owed); }
    var tree, rebuilt := FoldResults(g.size, m.chunks, t.finished, pc, nc, hash);
    if given {
      DirtyIsTouchedBy(g, ranges, dirty);
      EndsCaptured(m, prev, next, ranges, diff, j, t, tree, rebuilt, lost, owed);
    }
    r := Next(m.(chunks := tree), t.store, t.cache, t.puts, NewHashes(tree, rebuilt));
  }

  lemma DirtyIsTouchedBy(g: Grid, ranges: seq<Range>, dirty: set<nat>)
    requires g.Valid()
    requires forall idx: nat :: idx in dirty <==> idx < g.Count() && Touched(g, ranges, idx)
    ensures dirty == TouchedBy(g, ranges)
  {
  }

  lemma TidyEnd(t: Tasks, listed: set<Digest>, store0: map<Digest, Bytes>, sink: Sink)
    requires Tidy(t, listed, store0, sink) && t.inflight == []
    ensures PutOnce(t.puts, listed, listed + set h | h in t.puts)
    ensures t.store.Keys == store0.Keys + set h | h in t.puts
    ensures sink.LocalCache? ==> t.store == store0 && t.puts == []
  {
    forall h
      ensures h in t.store.Keys <==> h in store0.Keys + set h | h in t.puts
    {
      assert Coming(t, h) <==> h in store0 || h in t.puts;
    }
  }

  lemma ReadyToFold(m: Manifest, prev: Bytes, next: Bytes, ranges: seq<Range>, diff: Bytes, j: Job, t: Tasks,
                    lost: set<Digest>, owed: set<Digest>)
    requires Given(m, prev, next, ranges, diff, j.hash, j.store0, j.cache0, lost, owed) && |next| == m.totalBytes
    requires j == JobOf(m, next, j.hash, j.sink, j.dirty, j.store0, j.cache0, j.swept) && Underway(j, t)
    ensures j.nc == Cut(m.Grid(), next)
    ensures var pc := Cut(m.Grid(), prev);
            && |pc| == |j.nc| && Tracks(m.chunkSize, pc, j.nc, j.hash, {}, m.chunks, |pc| * m.chunkSize)
            && ResultsOk(t.finished, j.nc, j.hash)
  {
    StartTracks(m.chunkSize, Cut(m.Grid(), prev), j.nc, j.hash);
    assert forall k | 0 <= k < |t.finished| :: FinishedOk(j, t, t.finished[k]);
    hide Tracks, Cut, RefsTo;
  }

  // ---- Chains ---------------------------------------------------------------------------------------

  /** One capture of a chain, and what the cache may lose meanwhile. */
  datatype Update = Update(diff: Bytes, ranges: seq<Range>, sink: Sink, swept: set<Digest>)

  function SweptBy(updates: seq<Update>): set<Digest> {
    if updates == [] then {} else SweptBy(updates[..|updates| - 1]) + updates[|updates| - 1].swept
  }

  /** A chain of incremental captures of any length, durable and local ones mixed, each built
      from the one before and its dirty ranges only. It stops early only at a lost put or at a
      chunk the cache lost. Every manifest is the one a full capture would give, its chunks can
      be read but for what the cache lost, and they are durable but for the new hashes of the
      local captures. */
  method CaptureChain(m: Manifest, updates: seq<Update>, store: map<Digest, Bytes>, cache: map<Digest, Bytes>,
                      lands: Bytes -> bool, hash: Bytes -> Digest, ghost images: seq<Bytes>)
    returns (r: RechunkResult, owed: set<Digest>)
    requires |images| == |updates| + 1 && m.Grid().Valid() && |images[0]| == m.totalBytes && Injective(hash)
    requires m == Canonical(m.kind, m.Grid(), images[0], hash)
    requires Serves(store, hash, Cut(m.Grid(), images[0])) && Honest(store, hash) && Honest(cache, hash)
    requires forall i | 0 <= i < |updates| :: Written(updates[i].ranges, updates[i].diff, images[i], images[i + 1])
    ensures r.Next? || (r.PutLost? && !lands(r.body)) || (r.ChunkMissing? && r.hash in SweptBy(updates))
    ensures r.Next? ==>
              && |images[|updates|]| == m.totalBytes
              && r.manifest == Canonical(m.kind, m.Grid(), images[|updates|], hash)
              && Honest(r.store, hash) && Honest(r.cache, hash) && Extends(store, r.store)
              && Among(Cut(m.Grid(), images[|updates|]), hash, r.store.Keys + r.cache.Keys + SweptBy(updates))
              && Among(Cut(m.Grid(), images[|updates|]), hash, r.store.Keys + owed)
    ensures (forall i | 0 <= i < |updates| :: updates[i].sink.Durable?) ==>
              owed == {} && (r.Next? ==> Serves(r.store, hash, Cut(m.Grid(), images[|updates|])))
  {
    r, owed := Next(m, store, cache, [], []), {};
    assert updates[..0] == [];
    for i := 0 to |updates|
      invariant r.Next? && Chained(m, images[i], hash, store, r, SweptBy(updates[..i]), owed)
      invariant (forall k | 0 <= k < i :: updates[k].sink.Durable?) ==> owed == {}
    {
      hide Cut, Serves, Honest, RefsTo, PutOnce, Among, SweptBy, Written, Chained, Captured, Injective;
      var u := updates[i];
      SweptSnoc(updates, i);
      SweptPrefix(updates, i + 1);
      var was := r;
      ChainGiven(m, images[i], images[i + 1], hash, store, was, SweptBy(updates[..i]), owed, u);
      r := UpdateForDirtyRanges(was.manifest, u.diff, u.ranges, was.store, was.cache, u.sink, u.swept, lands, hash,
                                images[i], images[i + 1], SweptBy(updates[..i]), owed);
      if !r.Next? {
        return;
      }
      ChainOn(m, images[i], images[i + 1], hash, store, was, SweptBy(updates[..i]), owed, u, r);
      owed := owed + Debt(u.sink, r.newHashes);
    }
    assert updates[..|updates|] == updates;
    if owed == {} { HonestAmong(r.store, hash, Cut(m.Grid(), images[|updates|])); }
  }

  /** The chain so far: canonical, readable but for `lost`, durable but for `owed`. */
  ghost predicate Chained(m: Manifest, image: Bytes, hash: Bytes -> Digest, store: map<Digest, Bytes>, r: RechunkResult,
                          lost: set<Digest>, owed: set<Digest>)
    requires r.Next? && m.Grid().Valid()
  {
    && |image| == m.totalBytes && r.manifest == Canonical(m.kind, m.Grid(), image, hash)
    && Honest(r.store, hash) && Honest(r.cache, hash) && Extends(store, r.store)
    && Among(Cut(m.Grid(), image), hash, r.store.Keys + r.cache.Keys + lost)
    && Among(Cut(m.Grid(), image), hash, r.store.Keys + owed)
  }

  lemma ChainGiven(m: Manifest, image: Bytes, next: Bytes, hash: Bytes -> Digest, store: map<Digest, Bytes>,
                   was: RechunkResult, lost: set<Digest>, owed: set<Digest>, u: Update)
    requires was.Next? && m.Grid().Valid() && Chained(m, image, hash, store, was, lost, owed)
    requires Injective(hash) && Written(u.ranges, u.diff, image, next)
    ensures Given(was.manifest, image, next, u.ranges, u.diff, hash, was.store, was.cache, lost, owed)
    ensures WellFormed(was.manifest)
  {
    CanonicalWellFormed(m.kind, m.Grid(), image, hash);
    hide Cut, RefsTo, Among, Honest, WellFormed;
  }

  lemma ChainOn(m: Manifest, image: Bytes, next: Bytes, hash: Bytes -> Digest, store: map<Digest, Bytes>,
                was: RechunkResult, lost: set<Digest>, owed: set<Digest>, u: Update, r: RechunkResult)
    requires was.Next? && r.Next? && m.Grid().Valid() && Chained(m, image, hash, store, was, lost, owed)
    requires |next| == m.totalBytes
    requires Captured(was.manifest, u.ranges, next, hash, u.sink, was.store, lost, owed, u.swept, r)
    ensures Chained(m, next, hash, store, r, lost + u.swept, owed + Debt(u.sink, r.newHashes))
  {
    hide Cut, RefsTo, Among, Honest, TouchedHashes, TouchedBy, Debt;
  }

  lemma SweptSnoc(updates: seq<Update>, i: nat)
    requires i < |updates|
    ensures SweptBy(updates[..i + 1]) == SweptBy(updates[..i]) + updates[i].swept
  {
    assert updates[..i + 1][..i] == updates[..i];
  }

  lemma {:induction false} SweptPrefix(updates: seq<Update>, i: nat)
    requires i <= |updates|
    ensures SweptBy(updates[..i]) <= SweptBy(updates)
    decreases |updates| - i
  {
    if i == |updates| {
      assert updates[..i] == updates;
    } else {
      SweptSnoc(updates, i);
      SweptPrefix(updates, i + 1);
    }
  }

  lemma HonestAmong(store: map<Digest, Bytes>, hash: Bytes -> Digest, chunks: seq<Bytes>)
    requires Honest(store, hash) && Injective(hash) && Among(chunks, hash, store.Keys + {})
    ensures Serves(store, hash, chunks)
  {
  }

  // ---- Where a durable capture inherits a debt ----------------------------------------------------

  /** A durable capture is durable as a whole exactly when every digest its manifest shares with
      the previous one already was: those are taken for published and never put. */
  lemma DurableIff(m: Manifest, ranges: seq<Range>, next: Bytes, hash: Bytes -> Digest, store0: map<Digest, Bytes>,
                   lost: set<Digest>, swept: set<Digest>, r: RechunkResult)
    requires r.Next? && m.Grid().Valid() && |next| == m.totalBytes
    requires Captured(m, ranges, next, hash, Durable, store0, lost, Listed(m.chunks) - store0.Keys, swept, r)
    requires PutOnce(r.puts, Listed(m.chunks), Listed(m.chunks) + set h | h in r.puts)
    requires r.store.Keys == store0.Keys + set h | h in r.puts
    ensures Among(Cut(m.Grid(), next), hash, r.store.Keys)
            <==> Listed(m.chunks) * Listed(r.manifest.chunks) <= store0.Keys
  {
    var nc := Cut(m.Grid(), next);
    ListedIs(r.manifest, next, hash, r.store.Keys);
    ListedIs(r.manifest, next, hash, r.store.Keys + (Listed(m.chunks) - store0.Keys + Debt(Durable, r.newHashes)));
    hide Cut, RefsTo, Among, Listed, Honest, Extends, TouchedHashes, TouchedBy;
  }

  lemma {:induction false} NothingTouched(nc: seq<Bytes>, hash: Bytes -> Digest, n: nat)
    requires n <= |nc|
    ensures TouchedHashes(nc, hash, {}, n) == []
  {
    if n > 0 { NothingTouched(nc, hash, n - 1); }
  }

  /** The canonical manifest of an image of one byte. */
  lemma TinyCanonical(b: byte, hash: Bytes -> Digest)
    requires b != 0
    ensures Cut(Grid(1, 1), [b]) == [[b]]
    ensures Canonical(Disk, Grid(1, 1), [b], hash)
            == Manifest(MANIFEST_SCHEMA_VERSION, Disk, 1, 1, [ChunkRef(0, hash([b]))])
  {
    var g := Grid(1, 1);
    CountIff(g, 0);
    CountIff(g, 1);
    CutAt(g, [b], 1, 0);
    var c := Cut(g, [b]);
    assert |c| == 1 && c[0] == ChunkAt(g, [b], 0) == [b];
    assert c == [[b]] && c[0][0] != 0;
    assert RefsTo(1, c, hash, 0) == [];
  }

  lemma TinyGiven(a: byte, b: byte, ranges: seq<Range>, diff: Bytes, hash: Bytes -> Digest, store: map<Digest, Bytes>,
                  cache: map<Digest, Bytes>, owed: set<Digest>)
    requires a != 0 && Injective(hash) && Honest(store, hash) && Honest(cache, hash) && Written(ranges, diff, [a], [b])
    requires hash([a]) in store.Keys + cache.Keys && hash([a]) in store.Keys + owed
    ensures Given(Canonical(Disk, Grid(1, 1), [a], hash), [a], [b], ranges, diff, hash, store, cache, {}, owed)
    ensures WellFormed(Canonical(Disk, Grid(1, 1), [a], hash))
  {
    CanonicalWellFormed(Disk, Grid(1, 1), [a], hash);
    TinyCanonical(a, hash);
    hide Cut, RefsTo, WellFormed, Written, Honest, Injective;
    assert Among([[a]], hash, store.Keys + cache.Keys + {}) && Among([[a]], hash, store.Keys + owed);
  }

  lemma TinyWritten()
    ensures Written([Range(0, 1)], [2], [1], [2]) && Written([], [], [2], [2])
  {
    assert [Range(0, 1)][0].Has(0) && Dirty([Range(0, 1)], 0);
  }

  /** The byte changes from one to two and is captured locally. */
  method CaptureLocally(store: map<Digest, Bytes>, hash: Bytes -> Digest) returns (r: RechunkResult)
    requires Injective(hash) && Honest(store, hash) && hash([1]) in store
    ensures r.Next? && r.manifest == Canonical(Disk, Grid(1, 1), [2], hash) && r.store == store
    ensures Honest(r.cache, hash) && hash([2]) in r.store.Keys + r.cache.Keys
  {
    var m, ranges := Canonical(Disk, Grid(1, 1), [1], hash), [Range(0, 1)];
    assert Honest(map[], hash) && !AllZero([2]) by { assert [2][0] != 0; }
    TinyWritten();
    TinyGiven(1, 2, ranges, [2], hash, store, map[], {});
    TinyCanonical(2, hash);
    assert m.Grid() == Grid(1, 1) && m.kind == Disk;
    hide Cut, Canonical, Written, Captured, PutOnce, TouchedHashes, TouchedBy, Given, WellFormed, Honest, Injective,
         Listed;
    r := UpdateForDirtyRanges(m, [2], ranges, store, map[], LocalCache, {}, _ => true, hash, [1], [2], {}, {});
    CapturedIs(m, ranges, [2], hash, LocalCache, store, {}, {}, {}, r);
    assert hash([[2]][0]) in r.store.Keys + r.cache.Keys + ({} + {});
  }

  /** A local capture of a changed byte, then a durable one of nothing: its manifest lists a
      chunk that is in the cache only. */
  method DebtStays(hash: Bytes -> Digest) returns (r: RechunkResult)
    requires Injective(hash)
    ensures r.Next? && hash([2]) in Listed(r.manifest.chunks) && hash([2]) !in r.store
  {
    var store := map[hash([1]) := [1]];
    assert hash([1]) != hash([2]) by { assert [1][0] != [2][0]; }
    r := CaptureLocally(store, hash);
    var n, cache := r.manifest, r.cache;
    TinyWritten();
    TinyGiven(2, 2, [], [], hash, store, cache, {hash([2])});
    TinyCanonical(2, hash);
    assert n.Grid() == Grid(1, 1) && n.kind == Disk && hash([2]) in Listed(n.chunks) by {
      assert n.chunks[0].hash == hash([2]);
    }
    hide Cut, Canonical, Written, Captured, PutOnce, TouchedHashes, Given, WellFormed, Honest, Injective, Among, Listed;
    r := UpdateForDirtyRanges(n, [], [], store, cache, Durable, {}, _ => true, hash, [2], [2], {}, {hash([2])});
    CapturedIs(n, [], [2], hash, Durable, store, {}, {hash([2])}, {}, r);
    assert TouchedBy(Grid(1, 1), []) == {};
    NothingTouched([[2]], hash, 1);
  }

  lemma CapturedIs(m: Manifest, ranges: seq<Range>, next: Bytes, hash: Bytes -> Digest, sink: Sink,
                   store0: map<Digest, Bytes>, lost: set<Digest>, owed: set<Digest>, swept: set<Digest>,
                   r: RechunkResult)
    requires r.Next? && m.Grid().Valid() && |next| == m.totalBytes
    requires Captured(m, ranges, next, hash, sink, store0, lost, owed, swept, r)
    ensures r.manifest == Canonical(m.kind, m.Grid(), next, hash) && Honest(r.cache, hash)
    ensures var nc := Cut(m.Grid(), next);
            && Among(nc, hash, r.store.Keys + r.cache.Keys + (lost + swept))
            && r.newHashes == TouchedHashes(nc, hash, TouchedBy(m.Grid(), ranges), |nc|)
    ensures forall h | h in r.puts :: h in r.newHashes
  {
  }
}
