/** Concurrent streamed uploads to one path. Each writes a private temporary file, verifies
    it, and publishes it by a hard link that fails if the path exists. Nobody else writes
    the path. */
module UploadProtocol {
  import opened Wrappers
  import opened Bytes

  const MAX_SESSION_FILE_BYTES: nat := 512 * 1024 * 1024

  datatype Phase =
    | Asked
    | Unmatched
    | Receiving
    | Verified
    | Taken
    | Published
    | Broken
    | AnsweredOk
    | AnsweredError

  /** One upload: what it declared, and the temporary file only it writes. */
  datatype Upload = Upload(size: nat, sha256: Digest, temporary: Bytes, phase: Phase)

  datatype State = State(path: Option<Bytes>, uploads: map<nat, Upload>)

  datatype Step =
    | Ask(id: nat, size: nat, sha256: Digest)
    | CheckExisting(id: nat)
    | Stat(id: nat)
    | Chunk(id: nat, bytes: Bytes)
    | Break(id: nat)
    | Verify(id: nat)
    | Link(id: nat)
    | Recheck(id: nat)
    | Answer(id: nat)

  predicate Is(s: State, id: nat, phase: Phase) {
    id in s.uploads && s.uploads[id].phase == phase
  }

  predicate Enabled(s: State, step: Step) {
    match step
    case Ask(id, _, _) => id !in s.uploads
    case CheckExisting(id) => Is(s, id, Asked)
    case Stat(id) => Is(s, id, Unmatched)
    case Chunk(id, _) => Is(s, id, Receiving) && |s.uploads[id].temporary| < s.uploads[id].size
    case Break(id) => Is(s, id, Receiving) || Is(s, id, Verified) || Is(s, id, Taken)
    case Verify(id) => Is(s, id, Receiving) && |s.uploads[id].temporary| >= s.uploads[id].size
    case Link(id) => Is(s, id, Verified)
    case Recheck(id) => Is(s, id, Taken)
    case Answer(id) => Is(s, id, Published) || Is(s, id, Broken)
  }

  /** The file at the path has the declared size and digest. */
  predicate Matches(path: Option<Bytes>, size: nat, sha256: Digest, hash: Bytes -> Digest) {
    path.Some? && |path.value| == size && hash(path.value) == sha256
  }

  function Move(s: State, id: nat, u: Upload): State {
    s.(uploads := s.uploads[id := u])
  }

  function Do(s: State, step: Step, hash: Bytes -> Digest): State
    requires Enabled(s, step)
  {
    match step
    case Ask(id, size, sha256) =>
      Move(s, id, Upload(size, sha256, [], if size > MAX_SESSION_FILE_BYTES then AnsweredError else Asked))
    case CheckExisting(id) =>
      var u := s.uploads[id];
      Move(s, id, u.(phase := if Matches(s.path, u.size, u.sha256, hash) then AnsweredOk else Unmatched))
    case Stat(id) => Move(s, id, s.uploads[id].(phase := if s.path.Some? then AnsweredError else Receiving))
    case Chunk(id, bytes) =>
      var u := s.uploads[id];
      if |u.temporary| + |bytes| > u.size then Move(s, id, u.(phase := Broken))
      else Move(s, id, u.(temporary := u.temporary + bytes))
    case Break(id) => Move(s, id, s.uploads[id].(phase := Broken))
    case Verify(id) =>
      var u := s.uploads[id];
      Move(s, id, u.(phase := if hash(u.temporary) == u.sha256 then Verified else Broken))
    case Link(id) =>
      var u := s.uploads[id];
      if s.path.Some? then Move(s, id, u.(phase := Taken))
      else Move(s, id, u.(phase := Published)).(path := Some(u.temporary))
    case Recheck(id) =>
      var u := s.uploads[id];
      Move(s, id, u.(phase := if Matches(s.path, u.size, u.sha256, hash) then Published else Broken))
    case Answer(id) =>
      Move(s, id, s.uploads[id].(phase := if s.uploads[id].phase == Published then AnsweredOk else AnsweredError))
  }

  // ---- Invariant ---------------------------------------------------------------------------------

  predicate Succeeded(u: Upload) { u.phase == Published || u.phase == AnsweredOk }

  /** What was at the path is still there, and what appeared there an upload that succeeds
      declared. */
  ghost predicate Vouched(s: State, before: Option<Bytes>) {
    && (before.Some? ==> s.path == before)
    && (before.None? && s.path.Some? ==> exists id | id in s.uploads :: Succeeded(s.uploads[id]))
  }

  ghost predicate Honoured(s: State, u: Upload, hash: Bytes -> Digest) {
    && (u.phase == Asked || u.phase == Unmatched ==> u.temporary == [])
    && (u.phase == Receiving ==> |u.temporary| <= u.size)
    && (u.phase == Verified || u.phase == Taken ==> |u.temporary| == u.size && hash(u.temporary) == u.sha256)
    && (u.phase == Taken ==> s.path.Some?)
    && (u.phase != AnsweredError ==> u.size <= MAX_SESSION_FILE_BYTES)
    && (Succeeded(u) ==> Matches(s.path, u.size, u.sha256, hash))
  }

  ghost predicate Inv(s: State, before: Option<Bytes>, hash: Bytes -> Digest) {
    Vouched(s, before) && forall id | id in s.uploads :: Honoured(s, s.uploads[id], hash)
  }

  lemma Keeps(s: State, step: Step, before: Option<Bytes>, hash: Bytes -> Digest)
    requires Inv(s, before, hash) && Enabled(s, step)
    ensures Inv(Do(s, step, hash), before, hash)
    ensures s.path.Some? ==> Do(s, step, hash).path == s.path
  {
    HonouredOn(s, step, before, hash);
    VouchedOn(s, step, before, hash);
  }

  lemma HonouredOn(s: State, step: Step, before: Option<Bytes>, hash: Bytes -> Digest)
    requires Inv(s, before, hash) && Enabled(s, step)
    ensures forall id | id in Do(s, step, hash).uploads ::
              Honoured(Do(s, step, hash), Do(s, step, hash).uploads[id], hash)
  {
    hide Vouched;
  }

  lemma VouchedOn(s: State, step: Step, before: Option<Bytes>, hash: Bytes -> Digest)
    requires Inv(s, before, hash) && Enabled(s, step)
    ensures Vouched(Do(s, step, hash), before)
    ensures s.path.Some? ==> Do(s, step, hash).path == s.path
  {
    var t := Do(s, step, hash);
    if before.None? && s.path.Some? {
      var id :| id in s.uploads && Succeeded(s.uploads[id]);
      assert id in t.uploads && Succeeded(t.uploads[id]);
    } else if t.path.Some? && s.path.None? {
      assert Succeeded(t.uploads[step.id]);
    }
  }

  ghost predicate Leads(s: State, steps: seq<Step>, t: State, hash: Bytes -> Digest)
    decreases |steps|
  {
    if steps == [] then t == s
    else Enabled(s, steps[0]) && Leads(Do(s, steps[0], hash), steps[1..], t, hash)
  }

  lemma {:induction false} LeadsKeeps(s: State, steps: seq<Step>, t: State, before: Option<Bytes>,
                                      hash: Bytes -> Digest)
    requires Inv(s, before, hash) && Leads(s, steps, t, hash)
    ensures Inv(t, before, hash)
    ensures s.path.Some? ==> t.path == s.path
    ensures forall id | Is(s, id, AnsweredOk) :: Is(t, id, AnsweredOk)
    decreases |steps|
  {
    if steps != [] {
      Keeps(s, steps[0], before, hash);
      LeadsKeeps(Do(s, steps[0], hash), steps[1..], t, before, hash);
    }
  }

  /** Over every interleaving, whatever was at the path before: content there never changes,
      what appears there was declared whole by an upload that succeeds, and every Ok answer
      holds of it at once and ever after. */
  lemma WriteOnce(before: Option<Bytes>, early: seq<Step>, s: State, late: seq<Step>, t: State, hash: Bytes -> Digest)
    requires Leads(State(before, map[]), early, s, hash) && Leads(s, late, t, hash)
    ensures (before.Some? ==> s.path == before) && (s.path.Some? ==> t.path == s.path)
    ensures before.None? && s.path.Some? ==> |s.path.value| <= MAX_SESSION_FILE_BYTES && exists id | id in s.uploads ::
              Succeeded(s.uploads[id]) && Matches(s.path, s.uploads[id].size, s.uploads[id].sha256, hash)
    ensures forall id | Is(s, id, AnsweredOk) ::
              && Matches(s.path, s.uploads[id].size, s.uploads[id].sha256, hash)
              && Matches(t.path, s.uploads[id].size, s.uploads[id].sha256, hash)
  {
    LeadsKeeps(State(before, map[]), early, s, before, hash);
    LeadsKeeps(s, late, t, before, hash);
  }

  /** All uploads that are answered Ok declared the same file. */
  lemma OkAgree(before: Option<Bytes>, steps: seq<Step>, s: State, hash: Bytes -> Digest, a: nat, b: nat)
    requires Leads(State(before, map[]), steps, s, hash) && Is(s, a, AnsweredOk) && Is(s, b, AnsweredOk)
    ensures s.uploads[a].size == s.uploads[b].size && s.uploads[a].sha256 == s.uploads[b].sha256
  {
    LeadsKeeps(State(before, map[]), steps, s, before, hash);
  }

  // ---- When an upload is refused --------------------------------------------------------------------

  predicate Failing(u: Upload) { u.phase == Broken || u.phase == AnsweredError }

  /** The bytes a step brings the upload. */
  function Brings(step: Step, id: nat): Bytes {
    if step.Chunk? && step.id == id then step.bytes else []
  }

  /** What turns an upload down: a stat that finds the path taken, frames past the declared
      size, a broken transfer, another digest than the declared one, or a lost race against
      other content. `got` is what its frames have brought so far. */
  predicate Hits(path: Option<Bytes>, step: Step, id: nat, size: nat, sha256: Digest, got: Bytes,
                 hash: Bytes -> Digest) {
    step.id == id &&
    match step
    case Stat(_) => path.Some?
    case Chunk(_, bytes) => |got| + |bytes| > size
    case Break(_) => true
    case Verify(_) => hash(got) != sha256
    case Recheck(_) => !Matches(path, size, sha256, hash)
    case _ => false
  }

  /** Some step of the run turns the upload down. */
  ghost predicate Turned(s: State, steps: seq<Step>, id: nat, size: nat, sha256: Digest, got: Bytes,
                         hash: Bytes -> Digest)
    decreases |steps|
  {
    steps != [] && Enabled(s, steps[0])
    && (|| Hits(s.path, steps[0], id, size, sha256, got, hash)
        || Turned(Do(s, steps[0], hash), steps[1..], id, size, sha256, got + Brings(steps[0], id), hash))
  }

  /** The upload declared this, and its frames have brought `got`. */
  ghost predicate Holds(s: State, id: nat, size: nat, sha256: Digest, got: Bytes) {
    && id in s.uploads && s.uploads[id].size == size && s.uploads[id].sha256 == sha256
    && (Receives(s.uploads[id].phase) ==> s.uploads[id].temporary == got)
    && (s.uploads[id].phase == Asked || s.uploads[id].phase == Unmatched ==> got == [])
  }

  predicate Receives(phase: Phase) { phase == Receiving || phase == Verified || phase == Taken }

  /** One step: the upload keeps what it declared and what it got, unless the step turns it
      down. */
  lemma HoldsOn(s: State, step: Step, id: nat, size: nat, sha256: Digest, got: Bytes, before: Option<Bytes>,
                hash: Bytes -> Digest)
    requires Inv(s, before, hash) && Enabled(s, step) && Holds(s, id, size, sha256, got) && !Failing(s.uploads[id])
    ensures var t := Do(s, step, hash);
            && id in t.uploads && t.uploads[id].size == size && t.uploads[id].sha256 == sha256
            && (Failing(t.uploads[id]) <==> Hits(s.path, step, id, size, sha256, got, hash))
            && (!Failing(t.uploads[id]) ==> Holds(t, id, size, sha256, got + Brings(step, id)))
  {
    assert got + [] == got && [] + got == got;
    hide Vouched;
  }

  lemma {:induction false} StaysFailing(s: State, steps: seq<Step>, t: State, id: nat, hash: Bytes -> Digest)
    requires Leads(s, steps, t, hash) && id in s.uploads && Failing(s.uploads[id])
    ensures id in t.uploads && Failing(t.uploads[id])
    ensures t.uploads[id].size == s.uploads[id].size && t.uploads[id].sha256 == s.uploads[id].sha256
    decreases |steps|
  {
    if steps != [] { StaysFailing(Do(s, steps[0], hash), steps[1..], t, id, hash); }
  }

  lemma {:induction false} FailsIff(s: State, steps: seq<Step>, t: State, id: nat, size: nat, sha256: Digest,
                                    got: Bytes, before: Option<Bytes>, hash: Bytes -> Digest)
    requires Inv(s, before, hash) && Leads(s, steps, t, hash)
    requires Holds(s, id, size, sha256, got) && !Failing(s.uploads[id])
    ensures id in t.uploads && t.uploads[id].size == size && t.uploads[id].sha256 == sha256
    ensures Failing(t.uploads[id]) <==> Turned(s, steps, id, size, sha256, got, hash)
    decreases |steps|
  {
    if steps != [] {
      var u := Do(s, steps[0], hash);
      HoldsOn(s, steps[0], id, size, sha256, got, before, hash);
      Keeps(s, steps[0], before, hash);
      hide Do, Enabled, Inv;
      if Failing(u.uploads[id]) {
        StaysFailing(u, steps[1..], t, id, hash);
      } else {
        FailsIff(u, steps[1..], t, id, size, sha256, got + Brings(steps[0], id), before, hash);
      }
    }
  }

  /** It has all it declared, and its private file goes on to the path. */
  ghost predicate Settling(s: State, id: nat, hash: Bytes -> Digest) {
    id in s.uploads &&
      var u := s.uploads[id];
      && |u.temporary| == u.size && hash(u.temporary) == u.sha256
      && (u.phase == Receiving || u.phase == Verified || u.phase == Taken || Succeeded(u))
  }

  ghost predicate Lost(s: State, id: nat, hash: Bytes -> Digest) {
    && id in s.uploads && (s.uploads[id].phase == Broken || s.uploads[id].phase == AnsweredError)
    && s.path.Some? && !Matches(s.path, s.uploads[id].size, s.uploads[id].sha256, hash)
  }

  lemma SettlesOn(s: State, step: Step, id: nat, before: Option<Bytes>, hash: Bytes -> Digest)
    requires Inv(s, before, hash) && Enabled(s, step) && step != Break(id)
    requires Settling(s, id, hash) || Lost(s, id, hash)
    ensures Settling(Do(s, step, hash), id, hash) || Lost(Do(s, step, hash), id, hash)
  {
    Keeps(s, step, before, hash);
    hide Vouched;
  }

  /** Over every interleaving: an upload that has received what it declared, and is not broken
      off, is turned down only if other content got to the path. */
  lemma {:induction false} WholeSettles(s: State, steps: seq<Step>, t: State, id: nat, before: Option<Bytes>,
                                        hash: Bytes -> Digest)
    requires Inv(s, before, hash) && Leads(s, steps, t, hash) && Break(id) !in steps
    requires Settling(s, id, hash) || Lost(s, id, hash)
    ensures Settling(t, id, hash) || Lost(t, id, hash)
    decreases |steps|
  {
    if steps != [] {
      SettlesOn(s, steps[0], id, before, hash);
      Keeps(s, steps[0], before, hash);
      hide Do, Enabled, Inv, Settling, Lost;
      WholeSettles(Do(s, steps[0], hash), steps[1..], t, id, before, hash);
    }
  }

  /** A transfer can break at any point before its file is published; it is refused then, and
      the path stays as it is. */
  lemma BreakLeavesPath(s: State, id: nat, hash: Bytes -> Digest) returns (t: State)
    requires id in s.uploads && Receives(s.uploads[id].phase)
    ensures Leads(s, [Break(id), Answer(id)], t, hash) && Is(t, id, AnsweredError) && t.path == s.path
  {
    var u := Do(s, Break(id), hash);
    t := Do(u, Answer(id), hash);
    assert [Break(id), Answer(id)][1..] == [Answer(id)] && [Answer(id)][1..] == [];
    assert Leads(t, [], t, hash);
    assert Leads(u, [Answer(id)], t, hash);
  }

  predicate Answered(u: Upload) { u.phase == AnsweredOk || u.phase == AnsweredError }

  /** Over every interleaving: an answered upload is answered Ok exactly when it declared no
      more than the limit and no step after that turned it down. What it declared is in its
      own request, and what it got in its own frames. */
  lemma AnsweredIff(before: Option<Bytes>, early: seq<Step>, s: State, id: nat, size: nat, sha256: Digest,
                    late: seq<Step>, t: State, hash: Bytes -> Digest)
    requires Leads(State(before, map[]), early, s, hash) && Enabled(s, Ask(id, size, sha256))
    requires Leads(Do(s, Ask(id, size, sha256), hash), late, t, hash)
    ensures id in t.uploads
    ensures var u := Do(s, Ask(id, size, sha256), hash);
            var refused := size > MAX_SESSION_FILE_BYTES || Turned(u, late, id, size, sha256, [], hash);
            && (Answered(t.uploads[id]) ==> (t.uploads[id].phase == AnsweredOk <==> !refused))
            && (Failing(t.uploads[id]) <==> refused)
  {
    var u := Do(s, Ask(id, size, sha256), hash);
    LeadsKeeps(State(before, map[]), early, s, before, hash);
    Keeps(s, Ask(id, size, sha256), before, hash);
    if size > MAX_SESSION_FILE_BYTES {
      StaysFailing(u, late, t, id, hash);
    } else {
      FailsIff(u, late, t, id, size, sha256, [], before, hash);
    }
  }

  // ---- When it can succeed ---------------------------------------------------------------------------

  /** A run of the upload's own steps that ends with its Ok answer, its declared file at the
      path. */
  ghost predicate OkRun(s: State, steps: seq<Step>, t: State, id: nat, hash: Bytes -> Digest) {
    && Leads(s, steps, t, hash) && (forall k | 0 <= k < |steps| :: steps[k].id == id)
    && Is(t, id, AnsweredOk) && Matches(t.path, t.uploads[id].size, t.uploads[id].sha256, hash)
  }

  ghost predicate CanBeOk(s: State, id: nat, hash: Bytes -> Digest) {
    exists steps, t :: OkRun(s, steps, t, id, hash)
  }

  lemma OkNow(s: State, id: nat, before: Option<Bytes>, hash: Bytes -> Digest)
    requires Inv(s, before, hash) && Is(s, id, AnsweredOk)
    ensures CanBeOk(s, id, hash)
  {
    assert Leads(s, [], s, hash);
    assert OkRun(s, [], s, id, hash);
  }

  lemma OkFirst(s: State, step: Step, id: nat, hash: Bytes -> Digest)
    requires Enabled(s, step) && step.id == id && CanBeOk(Do(s, step, hash), id, hash)
    ensures CanBeOk(s, id, hash)
  {
    var steps, t :| OkRun(Do(s, step, hash), steps, t, id, hash);
    hide Do, Enabled, Matches;
    LeadsFirst(s, step, steps, t, hash);
    assert OkRun(s, [step] + steps, t, id, hash);
  }

  /** Free, or holding just what the upload declared. */
  ghost predicate Open(s: State, id: nat, hash: Bytes -> Digest)
    requires id in s.uploads
  {
    s.path.None? || Matches(s.path, s.uploads[id].size, s.uploads[id].sha256, hash)
  }

  lemma PublishedIsOk(s: State, id: nat, before: Option<Bytes>, hash: Bytes -> Digest)
    requires Inv(s, before, hash) && Is(s, id, Published)
    ensures CanBeOk(s, id, hash)
  {
    Keeps(s, Answer(id), before, hash);
    OkNow(Do(s, Answer(id), hash), id, before, hash);
    hide CanBeOk;
    OkFirst(s, Answer(id), id, hash);
  }

  lemma TakenIsOk(s: State, id: nat, before: Option<Bytes>, hash: Bytes -> Digest)
    requires Inv(s, before, hash) && Is(s, id, Taken) && Open(s, id, hash)
    ensures CanBeOk(s, id, hash)
  {
    hide CanBeOk;
    Keeps(s, Recheck(id), before, hash);
    PublishedIsOk(Do(s, Recheck(id), hash), id, before, hash);
    OkFirst(s, Recheck(id), id, hash);
  }

  lemma VerifiedIsOk(s: State, id: nat, before: Option<Bytes>, hash: Bytes -> Digest)
    requires Inv(s, before, hash) && Is(s, id, Verified) && Open(s, id, hash)
    ensures CanBeOk(s, id, hash)
  {
    hide CanBeOk;
    var u := Do(s, Link(id), hash);
    Keeps(s, Link(id), before, hash);
    if s.path.None? { PublishedIsOk(u, id, before, hash); } else { TakenIsOk(u, id, before, hash); }
    OkFirst(s, Link(id), id, hash);
  }

  /** The rest of its bytes in one frame, and the digest is right. */
  lemma ReceivingIsOk(s: State, id: nat, body: Bytes, before: Option<Bytes>, hash: Bytes -> Digest)
    requires Inv(s, before, hash) && Is(s, id, Receiving) && Open(s, id, hash)
    requires |body| == s.uploads[id].size && hash(body) == s.uploads[id].sha256 && s.uploads[id].temporary <= body
    ensures CanBeOk(s, id, hash)
  {
    hide CanBeOk;
    var got := s.uploads[id].temporary;
    if |got| < |body| {
      var rest := Chunk(id, body[|got|..]);
      assert got + body[|got|..] == body;
      Keeps(s, rest, before, hash);
      ReceivedIsOk(Do(s, rest, hash), id, before, hash);
      OkFirst(s, rest, id, hash);
    } else {
      assert got == body;
      ReceivedIsOk(s, id, before, hash);
    }
  }

  lemma ReceivedIsOk(s: State, id: nat, before: Option<Bytes>, hash: Bytes -> Digest)
    requires Inv(s, before, hash) && Is(s, id, Receiving) && Open(s, id, hash)
    requires |s.uploads[id].temporary| == s.uploads[id].size && hash(s.uploads[id].temporary) == s.uploads[id].sha256
    ensures CanBeOk(s, id, hash)
  {
    hide CanBeOk;
    Keeps(s, Verify(id), before, hash);
    VerifiedIsOk(Do(s, Verify(id), hash), id, before, hash);
    OkFirst(s, Verify(id), id, hash);
  }

  /** How far an upload that is not turned down has come, `body` being what it declared. */
  ghost predicate OnItsWay(s: State, id: nat, body: Bytes, hash: Bytes -> Digest) {
    && id in s.uploads && !Failing(s.uploads[id])
    && |body| == s.uploads[id].size && hash(body) == s.uploads[id].sha256
    && (s.uploads[id].phase == Receiving ==> s.uploads[id].temporary <= body)
  }

  /** From every reachable state: an upload that was not turned down and delivers its declared
      bytes can be answered Ok exactly when the path is free or holds the declared file, and it
      is not about to stat a path that was filled since its check. */
  lemma CanBeOkIff(s: State, id: nat, body: Bytes, before: Option<Bytes>, hash: Bytes -> Digest)
    requires Inv(s, before, hash) && OnItsWay(s, id, body, hash)
    ensures CanBeOk(s, id, hash) <==> Open(s, id, hash) && !(Is(s, id, Unmatched) && s.path.Some?)
  {
    if !Open(s, id, hash) {
      NotOpenFails(s, id, hash, before);
    } else if Is(s, id, Unmatched) && s.path.Some? {
      UnmatchedFails(s, id, hash, before);
    } else {
      OpenIsOk(s, id, body, before, hash);
    }
  }

  lemma NotOpenFails(s: State, id: nat, hash: Bytes -> Digest, before: Option<Bytes>)
    requires Inv(s, before, hash) && id in s.uploads && !Open(s, id, hash) && !Failing(s.uploads[id])
    ensures !CanBeOk(s, id, hash)
  {
    forall steps, t | Leads(s, steps, t, hash)
      ensures id in t.uploads && t.uploads[id].size == s.uploads[id].size
      ensures t.uploads[id].sha256 == s.uploads[id].sha256
      ensures t.path == s.path
    {
      LeadsKeeps(s, steps, t, before, hash);
      KeepsDeclared(s, steps, t, id, hash);
    }
  }

  lemma {:induction false} KeepsDeclared(s: State, steps: seq<Step>, t: State, id: nat, hash: Bytes -> Digest)
    requires Leads(s, steps, t, hash) && id in s.uploads
    ensures id in t.uploads && t.uploads[id].size == s.uploads[id].size && t.uploads[id].sha256 == s.uploads[id].sha256
    decreases |steps|
  {
    if steps != [] { KeepsDeclared(Do(s, steps[0], hash), steps[1..], t, id, hash); }
  }

  /** Behind its check and with the path taken, an upload can only be refused. */
  lemma {:induction false} UnmatchedStuck(s: State, steps: seq<Step>, t: State, id: nat, before: Option<Bytes>,
                                          hash: Bytes -> Digest)
    requires Inv(s, before, hash) && Leads(s, steps, t, hash) && s.path.Some?
    requires Is(s, id, Unmatched) || Is(s, id, AnsweredError)
    ensures Is(t, id, Unmatched) || Is(t, id, AnsweredError)
    decreases |steps|
  {
    if steps != [] {
      Keeps(s, steps[0], before, hash);
      UnmatchedStuck(Do(s, steps[0], hash), steps[1..], t, id, before, hash);
    }
  }

  lemma UnmatchedFails(s: State, id: nat, hash: Bytes -> Digest, before: Option<Bytes>)
    requires Inv(s, before, hash) && Is(s, id, Unmatched) && s.path.Some?
    ensures !CanBeOk(s, id, hash)
  {
    forall steps, t | Leads(s, steps, t, hash)
      ensures !Is(t, id, AnsweredOk)
    {
      UnmatchedStuck(s, steps, t, id, before, hash);
    }
  }

  lemma OpenIsOk(s: State, id: nat, body: Bytes, before: Option<Bytes>, hash: Bytes -> Digest)
    requires Inv(s, before, hash) && OnItsWay(s, id, body, hash) && Open(s, id, hash)
    requires !(Is(s, id, Unmatched) && s.path.Some?)
    ensures CanBeOk(s, id, hash)
  {
    match s.uploads[id].phase
    case Asked =>
      var u := Do(s, CheckExisting(id), hash);
      Keeps(s, CheckExisting(id), before, hash);
      if s.path.Some? { OkNow(u, id, before, hash); } else { UnmatchedIsOk(u, id, body, before, hash); }
      OkFirst(s, CheckExisting(id), id, hash);
    case Unmatched => UnmatchedIsOk(s, id, body, before, hash);
    case Receiving => ReceivingIsOk(s, id, body, before, hash);
    case Verified => VerifiedIsOk(s, id, before, hash);
    case Taken => TakenIsOk(s, id, before, hash);
    case Published => PublishedIsOk(s, id, before, hash);
    case AnsweredOk => OkNow(s, id, before, hash);
  }

  lemma UnmatchedIsOk(s: State, id: nat, body: Bytes, before: Option<Bytes>, hash: Bytes -> Digest)
    requires Inv(s, before, hash) && Is(s, id, Unmatched) && s.path.None? && OnItsWay(s, id, body, hash)
    ensures CanBeOk(s, id, hash)
  {
    hide CanBeOk;
    Keeps(s, Stat(id), before, hash);
    ReceivingIsOk(Do(s, Stat(id), hash), id, body, before, hash);
    OkFirst(s, Stat(id), id, hash);
  }

  /** A new request for a file of allowed size at a free path, or at one that holds it
      already, can be answered Ok. */
  lemma FreshIsOk(s: State, id: nat, body: Bytes, before: Option<Bytes>, hash: Bytes -> Digest)
    requires Inv(s, before, hash) && id !in s.uploads && |body| <= MAX_SESSION_FILE_BYTES
    requires s.path.None? || Matches(s.path, |body|, hash(body), hash)
    ensures CanBeOk(s, id, hash)
  {
    var ask := Ask(id, |body|, hash(body));
    Keeps(s, ask, before, hash);
    OpenIsOk(Do(s, ask, hash), id, body, before, hash);
    hide CanBeOk;
    OkFirst(s, ask, id, hash);
  }

  // ---- An upload refused beside its own file -----------------------------------------------------------

  /** Another upload of the same bytes, from its request to its link. */
  function Whole(id: nat, body: Bytes, sha256: Digest): seq<Step> {
    [Ask(id, |body|, sha256)] + ([CheckExisting(id)] + ([Stat(id)] + ([Chunk(id, body)] + ([Verify(id)] + [Link(id)]))))
  }

  /** Two requests for one file: the second publishes it between the first one's check and
      its stat, and the first is told that the path holds something else. */
  function Crossing(body: Bytes, sha256: Digest): seq<Step> {
    [Ask(0, |body|, sha256)] + ([CheckExisting(0)] + (Whole(1, body, sha256) + [Stat(0)]))
  }

  lemma LeadsFirst(s: State, step: Step, rest: seq<Step>, t: State, hash: Bytes -> Digest)
    requires Enabled(s, step) && Leads(Do(s, step, hash), rest, t, hash)
    ensures Leads(s, [step] + rest, t, hash)
  {
    assert ([step] + rest)[1..] == rest;
  }

  lemma LeadsOne(s: State, step: Step, t: State, hash: Bytes -> Digest)
    requires Enabled(s, step) && t == Do(s, step, hash)
    ensures Leads(s, [step], t, hash)
  {
    assert [step][1..] == [] && Leads(t, [], t, hash);
  }

  lemma {:induction false} LeadsOn(s: State, a: seq<Step>, t: State, b: seq<Step>, u: State, hash: Bytes -> Digest)
    requires Leads(s, a, t, hash) && Leads(t, b, u, hash)
    ensures Leads(s, a + b, u, hash)
    decreases |a|
  {
    if a == [] {
      assert a + b == b;
    } else {
      LeadsOn(Do(s, a[0], hash), a[1..], t, b, u, hash);
      assert (a + b)[1..] == a[1..] + b;
    }
  }

  /** An upload that has the machine to itself publishes its bytes. */
  lemma WholeLeads(s: State, id: nat, body: Bytes, hash: Bytes -> Digest)
    requires s.path.None? && id !in s.uploads && 0 < |body| <= MAX_SESSION_FILE_BYTES
    ensures Leads(s, Whole(id, body, hash(body)),
                  Move(s, id, Upload(|body|, hash(body), body, Published)).(path := Some(body)), hash)
  {
    var u := Upload(|body|, hash(body), [], Asked);
    var full := u.(temporary := body);
    var t := Move(s, id, full.(phase := Published)).(path := Some(body));
    assert [] + body == body;
    MoveAgain(s, id);
    LeadsOne(Move(s, id, full.(phase := Verified)), Link(id), t, hash);
    LeadsFirst(Move(s, id, full.(phase := Receiving)), Verify(id), [Link(id)], t, hash);
    hide Leads;
    LeadsFirst(Move(s, id, u.(phase := Receiving)), Chunk(id, body), [Verify(id)] + [Link(id)], t, hash);
    LeadsFirst(Move(s, id, u.(phase := Unmatched)), Stat(id), [Chunk(id, body)] + ([Verify(id)] + [Link(id)]), t, hash);
    LeadsFirst(Move(s, id, u), CheckExisting(id), [Stat(id)] + ([Chunk(id, body)] + ([Verify(id)] + [Link(id)])), t,
               hash);
    LeadsFirst(s, Ask(id, |body|, hash(body)),
               [CheckExisting(id)] + ([Stat(id)] + ([Chunk(id, body)] + ([Verify(id)] + [Link(id)]))), t, hash);
  }

  lemma MoveAgain(s: State, id: nat)
    ensures forall a, b :: Move(Move(s, id, a), id, b) == Move(s, id, b)
  {
    forall a, b
      ensures Move(Move(s, id, a), id, b) == Move(s, id, b)
    {
      assert s.uploads[id := a][id := b] == s.uploads[id := b];
    }
  }

  /** For every file: refused although the path holds what was declared. */
  lemma HonestRefused(body: Bytes, hash: Bytes -> Digest) returns (t: State)
    requires 0 < |body| <= MAX_SESSION_FILE_BYTES
    ensures Leads(State(None, map[]), Crossing(body, hash(body)), t, hash)
    ensures Is(t, 0, AnsweredError) && Matches(t.path, t.uploads[0].size, t.uploads[0].sha256, hash)
  {
    var s := State(None, map[]);
    var u := Upload(|body|, hash(body), [], Asked);
    var s2 := Move(s, 0, u.(phase := Unmatched));
    var s3 := Move(s2, 1, Upload(|body|, hash(body), body, Published)).(path := Some(body));
    t := Do(s3, Stat(0), hash);
    MoveAgain(s, 0);
    WholeLeads(s2, 1, body, hash);
    LeadsOne(s3, Stat(0), t, hash);
    hide Leads;
    LeadsOn(s2, Whole(1, body, hash(body)), s3, [Stat(0)], t, hash);
    LeadsFirst(Move(s, 0, u), CheckExisting(0), Whole(1, body, hash(body)) + [Stat(0)], t, hash);
    LeadsFirst(s, Ask(0, |body|, hash(body)), [CheckExisting(0)] + (Whole(1, body, hash(body)) + [Stat(0)]), t, hash);
  }
}
