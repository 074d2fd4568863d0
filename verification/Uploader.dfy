/** The asynchronous half of the region pipeline: receive finished chunks over a bounded channel
    while the producer goes on sending, put them with bounded concurrency, let the puts finish
    in any order, and sort the refs at the end. */
module Uploader {
  import opened Bytes
  import opened Manifests
  import opened Wrappers
  import Regions

  type Completed = Regions.Completed

  const UPLOAD_CONCURRENCY: nat := 64

  const COMPLETED_CHANNEL_DEPTH: nat := 8

  datatype Put = Put(offset: nat, body: Bytes)

  datatype Stats = Stats(chunksUploaded: nat, chunksElided: nat, bytesUploaded: nat)

  datatype UploadResult = Built(manifest: Manifest, stats: Stats) | PutFailed(put: Put)

  /** The puts a list of messages asks for. */
  function Puts(ms: seq<Completed>): (ps: seq<Put>)
    ensures |ps| <= |ms|
  {
    if |ms| == 0 then []
    else
      var init := Puts(ms[..|ms| - 1]);
      match ms[|ms| - 1]
      case Data(offset, body) => init + [Put(offset, body)]
      case Zero => init
  }

  function Ref(p: Put, hash: Bytes -> Digest): ChunkRef { ChunkRef(p.offset, hash(p.body)) }

  function Refs(ps: seq<Put>, hash: Bytes -> Digest): (rs: seq<ChunkRef>)
    ensures |rs| == |ps| && forall i | 0 <= i < |ps| :: rs[i] == Ref(ps[i], hash)
  {
    seq(|ps|, i requires 0 <= i < |ps| => Ref(ps[i], hash))
  }

  function BodyBytes(ps: seq<Put>): nat {
    if |ps| == 0 then 0 else BodyBytes(ps[..|ps| - 1]) + |ps[|ps| - 1].body|
  }

  function StatsOf(ms: seq<Completed>): Stats {
    Stats(|Puts(ms)|, |ms| - |Puts(ms)|, BodyBytes(Puts(ms)))
  }

  /** Every stored chunk sits under its own digest. */
  ghost predicate Honest(store: map<Digest, Bytes>, hash: Bytes -> Digest) {
    forall h | h in store :: hash(store[h]) == h
  }

  /** Content-addressed put: a chunk already there is not written again. */
  function PutChunk(store: map<Digest, Bytes>, hash: Bytes -> Digest, body: Bytes): (s: map<Digest, Bytes>)
    ensures Honest(store, hash) ==> Honest(s, hash)
    ensures hash(body) in s && forall h | h in store :: h in s && s[h] == store[h]
  {
    if hash(body) in store then store else store[hash(body) := body]
  }

  ghost predicate Monotone(reports: seq<nat>) {
    forall i, j | 0 <= i < j < |reports| :: reports[i] <= reports[j]
  }

  /** The reports of a running upload: one for every 32 finished chunks. */
  ghost predicate Every32(reports: seq<nat>) {
    forall k | 0 <= k < |reports| :: reports[k] == 32 * (k + 1)
  }

  ghost predicate Told(reports: seq<nat>, done: nat) {
    Every32(reports) && 32 * |reports| <= done < 32 * |reports| + 32
  }

  lemma {:induction false} PutsSnoc(ms: seq<Completed>, m: Completed)
    ensures Puts(ms + [m])
            == match m { case Data(offset, body) => Puts(ms) + [Put(offset, body)] case Zero => Puts(ms) }
  {
    assert (ms + [m])[..|ms|] == ms;
  }

  lemma {:induction false} PutsPrefix(ms: seq<Completed>, k: nat, p: Put)
    requires k <= |ms| && p in Puts(ms[..k])
    ensures p in Puts(ms)
    decreases |ms| - k
  {
    if k < |ms| {
      assert ms[..k + 1] == ms[..k] + [ms[k]];
      PutsSnoc(ms[..k], ms[k]);
      PutsPrefix(ms, k + 1, p);
    } else {
      assert ms[..k] == ms;
    }
  }

  /** The loop's bookkeeping after `received`: every put is in flight or has landed, and
      the refs collected so far plus those in flight are the refs asked for. */
  ghost predicate Balanced(received: seq<Completed>, inflight: seq<Put>, chunks: seq<ChunkRef>, done: nat,
                           reports: seq<nat>, store: map<Digest, Bytes>, hash: Bytes -> Digest, lands: Bytes -> bool)
  {
    && multiset(chunks) + multiset(Refs(inflight, hash)) == multiset(Refs(Puts(received), hash))
    && done + |inflight| == |received|
    && (forall p | p in inflight :: p in Puts(received))
    && (forall p | p in Puts(received) :: p in inflight || (lands(p.body) && hash(p.body) in store))
    && Honest(store, hash)
    && Monotone(reports) && (forall k | 0 <= k < |reports| :: reports[k] <= done)
  }

  lemma ReceivedData(received: seq<Completed>, inflight: seq<Put>, chunks: seq<ChunkRef>, done: nat, reports: seq<nat>,
                     store: map<Digest, Bytes>, hash: Bytes -> Digest, lands: Bytes -> bool, p: Put)
    requires Balanced(received, inflight, chunks, done, reports, store, hash, lands)
    ensures Balanced(received + [Regions.Data(p.offset, p.body)], inflight + [p], chunks, done, reports, store, hash,
                     lands)
  {
    PutsSnoc(received, Regions.Data(p.offset, p.body));
    RefsSnoc(inflight, p, hash);
    RefsSnoc(Puts(received), p, hash);
    hide Puts, Refs, Honest, Monotone;
  }

  lemma RefsSnoc(ps: seq<Put>, p: Put, hash: Bytes -> Digest)
    ensures Refs(ps + [p], hash) == Refs(ps, hash) + [Ref(p, hash)]
  {
  }

  lemma ReceivedZero(received: seq<Completed>, inflight: seq<Put>, chunks: seq<ChunkRef>, done: nat, reports: seq<nat>,
                     store: map<Digest, Bytes>, hash: Bytes -> Digest, lands: Bytes -> bool)
    requires Balanced(received, inflight, chunks, done, reports, store, hash, lands)
    ensures Balanced(received + [Regions.Zero], inflight, chunks, done + 1, reports, store, hash, lands)
  {
    PutsSnoc(received, Regions.Zero);
  }

  lemma PutLanded(received: seq<Completed>, inflight: seq<Put>, chunks: seq<ChunkRef>, done: nat, reports: seq<nat>,
                  store: map<Digest, Bytes>, hash: Bytes -> Digest, lands: Bytes -> bool, j: nat)
    requires Balanced(received, inflight, chunks, done, reports, store, hash, lands)
    requires j < |inflight| && lands(inflight[j].body)
    ensures Balanced(received, Without(inflight, j), chunks + [Ref(inflight[j], hash)], done + 1, reports,
                     PutChunk(store, hash, inflight[j].body), hash, lands)
  {
    var p, rest := inflight[j], Without(inflight, j);
    assert Refs(rest, hash) == Without(Refs(inflight, hash), j);
    forall q | q in rest
      ensures q in Puts(received)
    {
      assert q in multiset(inflight);
    }
    forall q | q in inflight && q != p
      ensures q in rest
    {
      assert q in multiset(inflight);
      assert q in multiset(rest);
    }
  }

  lemma Reported(received: seq<Completed>, inflight: seq<Put>, chunks: seq<ChunkRef>, done: nat, reports: seq<nat>,
                 store: map<Digest, Bytes>, hash: Bytes -> Digest, lands: Bytes -> bool)
    requires Balanced(received, inflight, chunks, done, reports, store, hash, lands)
    ensures Balanced(received, inflight, chunks, done, reports + [done], store, hash, lands)
  {
  }

  /** The uploader task against a producer that has `script` to send, for every schedule of
      sends, receives and completions: `lands(body)` says whether the put of that body succeeds.
      `sent` messages got into the channel; the producer's next send fails if it has more. */
  method Upload(kind: ManifestKind, chunkSize: nat, totalBytes: nat, script: seq<Completed>, hash: Bytes -> Digest,
                lands: Bytes -> bool, store0: map<Digest, Bytes>)
    returns (r: UploadResult, reports: seq<nat>, store: map<Digest, Bytes>, sent: nat)
    requires Honest(store0, hash)
    ensures r.Built? <==> forall p | p in Puts(script) :: lands(p.body)
    ensures r.Built? ==>
              && r.manifest.schemaVersion == MANIFEST_SCHEMA_VERSION && r.manifest.kind == kind
              && r.manifest.chunkSize == chunkSize && r.manifest.totalBytes == totalBytes
              && Sorted(r.manifest.chunks)
              && multiset(r.manifest.chunks) == multiset(Refs(Puts(script), hash))
              && r.stats == StatsOf(script) && sent == |script|
              && Honest(store, hash) && (forall p | p in Puts(script) :: hash(p.body) in store)
              && Monotone(reports) && |reports| > 0 && reports[|reports| - 1] == |script|
              && Every32(reports[..|reports| - 1])
    ensures r.PutFailed? ==> sent <= |script| && r.put in Puts(script[..sent]) && !lands(r.put.body)
  {
    hide Balanced, Puts, StatsOf, Refs, Honest, Monotone, Sorted, SortByOffset;
    var p, landed, chunks, done, stats;
    p, landed, chunks, done, stats, reports, store, sent := Run(script, hash, lands, store0);
    if !landed {
      PutsPrefix(script, sent, p);
      return PutFailed(p), reports, store, sent;
    }
    Reported(script, [], chunks, done, reports, store, hash, lands);
    assert (reports + [done])[..|reports|] == reports;
    reports := reports + [done];
    AllLanded(script, chunks, done, reports, store, hash, lands);
    r := Built(Manifest(MANIFEST_SCHEMA_VERSION, kind, chunkSize, totalBytes, SortByOffset(chunks)), stats);
  }

  /** The channel between producer and uploader, and the uploader's own bookkeeping. */
  datatype Pipe = Pipe(queue: seq<Completed>, sent: nat, closed: bool, inflight: seq<Put>, chunks: seq<ChunkRef>,
                       done: nat, stats: Stats, reports: seq<nat>, store: map<Digest, Bytes>)

  /** `next` messages have been received. */
  ghost predicate Works(script: seq<Completed>, next: nat, w: Pipe, hash: Bytes -> Digest, lands: Bytes -> bool) {
    && Flows(script, w.queue, next, w.sent, w.closed) && w.stats == StatsOf(script[..next])
    && |w.queue| <= COMPLETED_CHANNEL_DEPTH && |w.inflight| <= UPLOAD_CONCURRENCY
    && Balanced(script[..next], w.inflight, w.chunks, w.done, w.reports, w.store, hash, lands)
    && Told(w.reports, w.done)
  }

  /** Producer and select loop interleaved, until the channel is closed and drained. Some step is
      always possible, and none can go on for ever. */
  method Pump(script: seq<Completed>, hash: Bytes -> Digest, lands: Bytes -> bool, store0: map<Digest, Bytes>)
    returns (p: Put, landed: bool, w: Pipe)
    requires Honest(store0, hash)
    ensures w.sent <= |script|
    ensures landed ==>
              && w.sent == |script| && w.stats == StatsOf(script)
              && Balanced(script, w.inflight, w.chunks, w.done, w.reports, w.store, hash, lands)
              && Every32(w.reports)
    ensures !landed ==> p in Puts(script[..w.sent]) && !lands(p.body)
  {
    w := Pipe([], 0, false, [], [], 0, Stats(0, 0, 0), [], store0);
    p, landed := Put(0, []), true;
    var open := true;
    ghost var next := 0;
    StartsWorking(script, store0, hash, lands);
    hide Works, Puts, StatsOf, Refs, Honest, Balanced;
    while open
      invariant Works(script, next, w, hash, lands) && w.sent <= |script| && landed
      invariant open || (w.closed && w.queue == [])
      decreases open, |script| - w.sent, !w.closed, |w.queue|, |w.inflight|
    {
      if {
        case w.sent < |script| && |w.queue| < COMPLETED_CHANNEL_DEPTH =>
          Sends(script, next, w, hash, lands);
          w := w.(queue := w.queue + [script[w.sent]], sent := w.sent + 1);
        case w.sent == |script| && !w.closed =>
          Closes(script, next, w, hash, lands);
          w := w.(closed := true);
        case |w.inflight| > 0 =>
          p, landed, w := LandOne(script, next, w, hash, lands);
          if !landed {
            return;
          }
        case |w.inflight| < UPLOAD_CONCURRENCY && w.queue != [] =>
          w := ReceiveOne(script, next, w, hash, lands);
          next := next + 1;
        case |w.inflight| < UPLOAD_CONCURRENCY && w.queue == [] && w.closed =>
          open := false;
      }
    }
    AllReceived(script, next, w, hash, lands);
  }

  /** The pipeline to its end: every put that is still in flight is waited for. */
  method Run(script: seq<Completed>, hash: Bytes -> Digest, lands: Bytes -> bool, store0: map<Digest, Bytes>)
    returns (p: Put, landed: bool, chunks: seq<ChunkRef>, done: nat, stats: Stats, reports: seq<nat>,
             store: map<Digest, Bytes>, sent: nat)
    requires Honest(store0, hash)
    ensures sent <= |script|
    ensures landed ==>
              && sent == |script| && stats == StatsOf(script)
              && Balanced(script, [], chunks, done, reports, store, hash, lands) && Every32(reports)
    ensures !landed ==> p in Puts(script[..sent]) && !lands(p.body)
  {
    hide Puts, StatsOf, Refs, Honest, Balanced;
    var w;
    p, landed, w := Pump(script, hash, lands, store0);
    chunks, done, stats, reports, store, sent := w.chunks, w.done, w.stats, w.reports, w.store, w.sent;
    if landed {
      p, landed, chunks, done, store := Drain(script, w.inflight, chunks, done, reports, store, hash, lands);
      assert script[..sent] == script;
    }
  }

  /** The channel holds what was sent and not yet received, in order. */
  ghost predicate Flows(script: seq<Completed>, queue: seq<Completed>, next: nat, sent: nat, closed: bool) {
    next <= sent <= |script| && queue == script[next..sent] && (closed ==> sent == |script|)
  }

  lemma StartsWorking(script: seq<Completed>, store0: map<Digest, Bytes>, hash: Bytes -> Digest, lands: Bytes -> bool)
    requires Honest(store0, hash)
    ensures Works(script, 0, Pipe([], 0, false, [], [], 0, Stats(0, 0, 0), [], store0), hash, lands)
  {
    assert script[..0] == [] && StatsOf([]) == Stats(0, 0, 0);
    StartsBalanced(store0, hash, lands);
    hide Balanced, StatsOf;
  }

  lemma Sends(script: seq<Completed>, next: nat, w: Pipe, hash: Bytes -> Digest, lands: Bytes -> bool)
    requires Works(script, next, w, hash, lands) && w.sent < |script| && |w.queue| < COMPLETED_CHANNEL_DEPTH
    ensures Works(script, next, w.(queue := w.queue + [script[w.sent]], sent := w.sent + 1), hash, lands)
  {
    hide Balanced, StatsOf;
  }

  lemma Closes(script: seq<Completed>, next: nat, w: Pipe, hash: Bytes -> Digest, lands: Bytes -> bool)
    requires Works(script, next, w, hash, lands) && w.sent == |script|
    ensures Works(script, next, w.(closed := true), hash, lands)
  {
    hide Balanced, StatsOf;
  }

  /** One of the puts in flight finishes; if it fails, its message had been sent. */
  method LandOne(ghost script: seq<Completed>, ghost next: nat, w: Pipe, hash: Bytes -> Digest, lands: Bytes -> bool)
    returns (p: Put, landed: bool, w': Pipe)
    requires Works(script, next, w, hash, lands) && |w.inflight| > 0
    ensures w'.queue == w.queue && w'.sent == w.sent <= |script| && w'.closed == w.closed
    ensures landed ==> Works(script, next, w', hash, lands) && |w'.inflight| < |w.inflight|
    ensures !landed ==> p in Puts(script[..w.sent]) && !lands(p.body)
  {
    hide Balanced, StatsOf, Puts;
    var inflight, chunks, done, store;
    p, landed, inflight, chunks, done, store :=
      LandAny(script[..next], w.inflight, w.chunks, w.done, w.reports, w.store, hash, lands);
    w' := w;
    if landed {
      var reports := Report(script[..next], inflight, chunks, done, w.reports, store, hash, lands);
      w' := w.(inflight := inflight, chunks := chunks, done := done, reports := reports, store := store);
    } else {
      ReceivedWasSent(script, next, w.sent, p);
    }
  }

  lemma ReceivedWasSent(script: seq<Completed>, next: nat, sent: nat, p: Put)
    requires next <= sent <= |script| && p in Puts(script[..next])
    ensures p in Puts(script[..sent])
  {
    assert script[..sent][..next] == script[..next];
    PutsPrefix(script[..sent], next, p);
  }

  method ReceiveOne(ghost script: seq<Completed>, ghost next: nat, w: Pipe, ghost hash: Bytes -> Digest,
                    ghost lands: Bytes -> bool)
    returns (w': Pipe)
    requires Works(script, next, w, hash, lands) && w.queue != [] && |w.inflight| < UPLOAD_CONCURRENCY
    ensures Works(script, next + 1, w', hash, lands)
    ensures w'.sent == w.sent && w'.closed == w.closed && |w'.queue| < |w.queue|
  {
    QueueShrinks(script, w.queue, next, w.sent, w.closed);
    hide Balanced, StatsOf, Flows;
    var inflight, done, stats, reports :=
      Receive(w.queue[0], script, next, w.inflight, w.chunks, w.done, w.stats, w.reports, w.store, hash, lands);
    w' := w.(queue := w.queue[1..], inflight := inflight, done := done, stats := stats, reports := reports);
  }

  lemma QueueShrinks(script: seq<Completed>, queue: seq<Completed>, next: nat, sent: nat, closed: bool)
    requires Flows(script, queue, next, sent, closed) && queue != []
    ensures next < |script| && queue[0] == script[next] && Flows(script, queue[1..], next + 1, sent, closed)
  {
  }

  lemma AllReceived(script: seq<Completed>, next: nat, w: Pipe, hash: Bytes -> Digest, lands: Bytes -> bool)
    requires Works(script, next, w, hash, lands) && w.closed && w.queue == []
    ensures w.sent == |script| && w.stats == StatsOf(script)
    ensures Balanced(script, w.inflight, w.chunks, w.done, w.reports, w.store, hash, lands) && Every32(w.reports)
  {
    assert |script[next..w.sent]| == 0 && script[..next] == script;
    hide Balanced, StatsOf;
  }

  /** The channel is closed: wait for every put still in flight. */
  method Drain(ghost rx: seq<Completed>, inflight0: seq<Put>, chunks0: seq<ChunkRef>, done0: nat,
               ghost reports: seq<nat>, store0: map<Digest, Bytes>, hash: Bytes -> Digest, lands: Bytes -> bool)
    returns (p: Put, landed: bool, chunks: seq<ChunkRef>, done: nat, store: map<Digest, Bytes>)
    requires Balanced(rx, inflight0, chunks0, done0, reports, store0, hash, lands)
    ensures landed ==> Balanced(rx, [], chunks, done, reports, store, hash, lands)
    ensures !landed ==> p in Puts(rx) && !lands(p.body)
  {
    hide Balanced;
    var inflight := inflight0;
    p, landed, chunks, done, store := Put(0, []), true, chunks0, done0, store0;
    while |inflight| > 0
      invariant Balanced(rx, inflight, chunks, done, reports, store, hash, lands)
      invariant landed
    {
      p, landed, inflight, chunks, done, store := LandAny(rx, inflight, chunks, done, reports, store, hash, lands);
      if !landed {
        return;
      }
    }
  }

  /** The next message arrives: a put starts, or a zero chunk counts as finished. */
  method Receive(msg: Completed, ghost script: seq<Completed>, ghost next: nat, inflight: seq<Put>,
                 ghost chunks: seq<ChunkRef>, done: nat, stats: Stats, reports: seq<nat>,
                 ghost store: map<Digest, Bytes>, ghost hash: Bytes -> Digest, ghost lands: Bytes -> bool)
    returns (inflight': seq<Put>, done': nat, stats': Stats, reports': seq<nat>)
    requires next < |script| && msg == script[next]
    requires Balanced(script[..next], inflight, chunks, done, reports, store, hash, lands)
    requires stats == StatsOf(script[..next]) && Told(reports, done)
    ensures Balanced(script[..next + 1], inflight', chunks, done', reports', store, hash, lands)
    ensures Told(reports', done')
    ensures stats' == StatsOf(script[..next + 1]) && |inflight'| <= |inflight| + 1
  {
    hide Balanced;
    assert script[..next + 1] == script[..next] + [msg];
    PutsSnoc(script[..next], msg);
    inflight', done', stats', reports' := inflight, done, stats, reports;
    match msg {
      case Data(offset, body) =>
        ReceivedData(script[..next], inflight, chunks, done, reports, store, hash, lands, Put(offset, body));
        BodyBytesSnoc(Puts(script[..next]), Put(offset, body));
        stats' := stats.(chunksUploaded := stats.chunksUploaded + 1, bytesUploaded := stats.bytesUploaded + |body|);
        inflight' := inflight + [Put(offset, body)];
      case Zero =>
        ReceivedZero(script[..next], inflight, chunks, done, reports, store, hash, lands);
        stats' := stats.(chunksElided := stats.chunksElided + 1);
        done' := done + 1;
        reports' := Report(script[..next + 1], inflight, chunks, done', reports, store, hash, lands);
    }
  }

  /** One of the puts in flight finishes, whichever it is. */
  method LandAny(ghost received: seq<Completed>, inflight: seq<Put>, chunks: seq<ChunkRef>, done: nat,
                 ghost reports: seq<nat>, store: map<Digest, Bytes>, hash: Bytes -> Digest, lands: Bytes -> bool)
    returns (p: Put, landed: bool, inflight': seq<Put>, chunks': seq<ChunkRef>, done': nat, store': map<Digest, Bytes>)
    requires Balanced(received, inflight, chunks, done, reports, store, hash, lands) && |inflight| > 0
    ensures p in Puts(received) && landed == lands(p.body)
    ensures landed ==> |inflight'| == |inflight| - 1 && done' == done + 1
                       && Balanced(received, inflight', chunks', done', reports, store', hash, lands)
  {
    var j :| 0 <= j < |inflight|;
    p, landed := inflight[j], lands(inflight[j].body);
    inflight', chunks', done', store' := inflight, chunks, done, store;
    if landed {
      PutLanded(received, inflight, chunks, done, reports, store, hash, lands, j);
      chunks', done' := chunks + [Ref(p, hash)], done + 1;
      store', inflight' := PutChunk(store, hash, p.body), Without(inflight, j);
    }
  }

  /** Every 32nd finished chunk is reported. */
  method Report(ghost received: seq<Completed>, ghost inflight: seq<Put>, ghost chunks: seq<ChunkRef>, done: nat,
                reports: seq<nat>, ghost store: map<Digest, Bytes>, ghost hash: Bytes -> Digest,
                ghost lands: Bytes -> bool)
    returns (reports': seq<nat>)
    requires Balanced(received, inflight, chunks, done, reports, store, hash, lands)
    requires done > 0 && Told(reports, done - 1)
    ensures Balanced(received, inflight, chunks, done, reports', store, hash, lands) && Told(reports', done)
  {
    reports' := reports;
    if done % 32 == 0 {
      Reported(received, inflight, chunks, done, reports, store, hash, lands);
      reports' := reports + [done];
    }
  }

  lemma StartsBalanced(store: map<Digest, Bytes>, hash: Bytes -> Digest, lands: Bytes -> bool)
    requires Honest(store, hash)
    ensures Balanced([], [], [], 0, [], store, hash, lands)
  {
  }

  lemma BodyBytesSnoc(ps: seq<Put>, p: Put)
    ensures BodyBytes(ps + [p]) == BodyBytes(ps) + |p.body|
  {
    assert (ps + [p])[..|ps|] == ps;
  }

  lemma AllLanded(rx: seq<Completed>, chunks: seq<ChunkRef>, done: nat, reports: seq<nat>, store: map<Digest, Bytes>,
                  hash: Bytes -> Digest, lands: Bytes -> bool)
    requires Balanced(rx, [], chunks, done, reports, store, hash, lands)
    ensures done == |rx| && Honest(store, hash) && Monotone(reports)
    ensures multiset(chunks) == multiset(Refs(Puts(rx), hash))
    ensures forall p | p in Puts(rx) :: lands(p.body) && hash(p.body) in store
  {
    assert multiset(Refs([], hash)) == multiset{};
  }
}
