/** Attaching to a recorded exec: both output files are replayed from the caller's offsets
    while they may still grow, and the record's state decides how the attach ends.

    The k-th look at the record sees `at(k)`. Files are only appended to, markers are written
    once, and the exit marker comes after the last output byte. */
module TailJournal {
  import opened Wrappers
  import opened Bytes
  import opened ExecEvents

  datatype File<+T> = Absent | Corrupt | Present(value: T)

  /** The record as one look finds it. A pid file is shown with the answer its process gives;
      `recent` says the request is younger than the spawn grace. */
  datatype Journal = Journal(request: File<seq<string>>, exit: File<Option<int>>, owner: File<bool>, pid: File<bool>,
                             recent: bool, degraded: bool, out: Option<Bytes>, err: Option<Bytes>)

  datatype AttachState = Running | NoRequest | Died | Complete(code: Option<int>) | Mismatch

  ghost predicate Appended(a: Option<Bytes>, b: Option<Bytes>) {
    a.Some? ==> b.Some? && a.value <= b.value
  }

  ghost predicate Grows(a: Journal, b: Journal) {
    && (a.request.Present? ==> b.request == a.request)
    && (a.exit.Present? ==> b.exit == a.exit && b.out == a.out && b.err == a.err)
    && (a.degraded ==> b.degraded)
    && Appended(a.out, b.out) && Appended(a.err, b.err)
  }

  ghost predicate Evolves(at: nat -> Journal) {
    forall i, j | 0 <= i <= j :: Grows(at(i), at(j))
  }

  /** The four reads happen one after the other, each at its own look. */
  function StateFor(at: nat -> Journal, t: nat, command: seq<string>): AttachState {
    if !at(t).request.Present? then NoRequest
    else if at(t).request.value != command then Mismatch
    else
      match at(t + 1).exit
      case Present(code) => Complete(code)
      case Corrupt => Died
      case Absent =>
        match at(t + 2).owner
        case Present(alive) => if alive then Running else Died
        case Corrupt => Died
        case Absent =>
          match at(t + 3).pid
          case Present(alive) => if alive then Running else Died
          case _ => if at(t + 3).recent then Running else Died
  }

  /** The wrapper stays until its exit marker is written, and says so in owner_pid. */
  ghost predicate OwnedToTheEnd(at: nat -> Journal, command: seq<string>) {
    && Evolves(at)
    && forall t: nat :: at(t).request == Present(command) && at(t).owner.Present? && !at(t).exit.Corrupt?
                        && (at(t).exit.Absent? ==> at(t).owner.value)
  }

  /** The exit marker lands, and the wrapper leaves, between the exit read and the owner
      probe of the state read at `t`. */
  ghost predicate Raced(at: nat -> Journal, t: nat) {
    at(t + 1).exit.Absent? && at(t + 2).exit.Present? && at(t + 2).owner == Present(false)
  }

  /** A wrapper that finishes properly is called dead exactly when its marker lands, and it
      leaves, between the exit read and the owner probe. */
  lemma CalledDeadIff(at: nat -> Journal, t: nat, command: seq<string>)
    requires OwnedToTheEnd(at, command)
    ensures StateFor(at, t, command) == Died <==> Raced(at, t)
    ensures at(t + 1) == at(t + 2) ==> StateFor(at, t, command) == Running || StateFor(at, t, command).Complete?
    ensures forall code :: StateFor(at, t, command) == Complete(code) ==> at(t + 1).exit == Present(code)
  {
  }

  // ---- Reading one chunk --------------------------------------------------------------------------

  predicate More(file: Option<Bytes>, offset: nat) {
    file.Some? && offset < |file.value|
  }

  /** The bytes between two offsets; an offset past the end of the file has read nothing. */
  ghost predicate IsSpan(bytes: Bytes, file: Option<Bytes>, from: nat, to: nat) {
    || (from == to && bytes == [])
    || (file.Some? && from <= to <= |file.value| && bytes == file.value[from..to])
  }

  method ReadChunk(file: Option<Bytes>, offset: nat) returns (chunk: Option<Bytes>, next: nat)
    ensures chunk.Some? <==> More(file, offset)
    ensures chunk.None? ==> next == offset
    ensures chunk.Some? ==>
              0 < |chunk.value| <= READ_BUF_BYTES && offset < next && IsSpan(chunk.value, file, offset, next)
  {
    if file.None? || offset >= |file.value| {
      return None, offset;
    }
    var left := |file.value| - offset;
    var available := if left < READ_BUF_BYTES then left else READ_BUF_BYTES;
    chunk := Some(file.value[offset..offset + available]);
    next := offset + available;
  }

  lemma SpanSnoc(bytes: Bytes, more: Bytes, file: Option<Bytes>, from: nat, mid: nat, to: nat)
    requires IsSpan(bytes, file, from, mid) && IsSpan(more, file, mid, to) && mid < to
    ensures IsSpan(bytes + more, file, from, to)
  {
    if from == mid { assert bytes + more == more; }
    else { assert file.value[from..mid] + file.value[mid..to] == file.value[from..to]; }
  }

  lemma SpanLater(bytes: Bytes, a: Option<Bytes>, b: Option<Bytes>, from: nat, to: nat)
    requires IsSpan(bytes, a, from, to) && Appended(a, b)
    ensures IsSpan(bytes, b, from, to)
  {
  }

  // ---- The attach -----------------------------------------------------------------------------------

  const PROBES: nat := 40

  const LAST_PROBE: nat := 2 + 4 * PROBES

  const FIRST_POLL: nat := LAST_PROBE + 4

  /** A poll looks at the degraded marker, the two files, then the state: seven looks. */
  function PollAt(n: nat): nat { FIRST_POLL + 7 * n }

  /** Waits, boundedly, for the record's first writer to publish its command. */
  method AwaitRequest(at: nat -> Journal, command: seq<string>) returns (state: AttachState)
    requires Evolves(at)
    ensures state.NoRequest? <==> !at(LAST_PROBE).request.Present?
    ensures state.Mismatch? <==> at(LAST_PROBE).request.Present? && at(LAST_PROBE).request.value != command
  {
    state := StateFor(at, 2, command);
    var probe := 0;
    while probe < PROBES && state.NoRequest?
      invariant probe <= PROBES && state == StateFor(at, 2 + 4 * probe, command)
    {
      probe := probe + 1;
      state := StateFor(at, 2 + 4 * probe, command);
    }
    assert Grows(at(2 + 4 * probe), at(LAST_PROBE));
  }

  ghost predicate AtEnd(file: Option<Bytes>, start: nat, end: nat) {
    end == if More(file, start) then |file.value| else start
  }

  /** The poll that began at `t` found both files read to their end. */
  ghost predicate Drained(at: nat -> Journal, t: nat, outStart: nat, outEnd: nat, errStart: nat, errEnd: nat) {
    AtEnd(at(t + 1).out, outStart, outEnd) && AtEnd(at(t + 2).err, errStart, errEnd)
  }

  /** The replay so far: exactly the bytes between the start and current offsets. */
  ghost predicate Replayed(j: Journal, replay: seq<Event>, outStart: nat, outEnd: nat, errStart: nat, errEnd: nat) {
    && IsSpan(Outs(replay), j.out, outStart, outEnd) && IsSpan(Errs(replay), j.err, errStart, errEnd)
    && forall i | 0 <= i < |replay| :: IsOutput(replay[i])
  }

  /** Complete when the attach began, for this command, and never degraded. */
  ghost predicate Settled(at: nat -> Journal, command: seq<string>) {
    && at(0).request == Present(command) && at(0).exit.Present?
    && forall t: nat :: !at(t).degraded
  }

  /** The record never belongs to this command. */
  ghost predicate Foreign(at: nat -> Journal, command: seq<string>) {
    forall t: nat :: at(t).request != Present(command)
  }

  function Left(file: Option<Bytes>, offset: nat): nat {
    if More(file, offset) then |file.value| - offset else 0
  }

  function Rest(file: Option<Bytes>, offset: nat): Bytes {
    if More(file, offset) then file.value[offset..] else []
  }

  /** The first poll finds something to read. */
  ghost predicate Leaks(at: nat -> Journal, outStart: nat, errStart: nat) {
    !at(FIRST_POLL).degraded && (More(at(FIRST_POLL + 1).out, outStart) || More(at(FIRST_POLL + 2).err, errStart))
  }

  lemma LaterReplayed(a: Journal, b: Journal, replay: seq<Event>, outStart: nat, outEnd: nat, errStart: nat,
                      errEnd: nat)
    requires Replayed(a, replay, outStart, outEnd, errStart, errEnd) && Grows(a, b)
    ensures Replayed(b, replay, outStart, outEnd, errStart, errEnd)
  {
    SpanLater(Outs(replay), a.out, b.out, outStart, outEnd);
    SpanLater(Errs(replay), a.err, b.err, errStart, errEnd);
  }

  lemma AppendOut(j: Journal, replay: seq<Event>, chunk: Bytes, outStart: nat, out: nat, out': nat, errStart: nat,
                  err: nat)
    requires Replayed(j, replay, outStart, out, errStart, err) && IsSpan(chunk, j.out, out, out') && out < out'
    ensures Replayed(j, replay + [Stdout(chunk)], outStart, out', errStart, err)
  {
    SpanSnoc(Outs(replay), chunk, j.out, outStart, out, out');
    Snoc(replay, Stdout(chunk));
    hide Outs, Errs, IsSpan;
  }

  lemma AppendErr(j: Journal, replay: seq<Event>, chunk: Bytes, outStart: nat, out: nat, errStart: nat, err: nat,
                  err': nat)
    requires Replayed(j, replay, outStart, out, errStart, err) && IsSpan(chunk, j.err, err, err') && err < err'
    ensures Replayed(j, replay + [Stderr(chunk)], outStart, out, errStart, err')
  {
    SpanSnoc(Errs(replay), chunk, j.err, errStart, err, err');
    Snoc(replay, Stderr(chunk));
    hide Outs, Errs, IsSpan;
  }

  /** Reads on in both files, once. */
  method PollFiles(j: Journal, k: Journal, replay: seq<Event>, ghost outStart: nat, out: nat, ghost errStart: nat,
                   err: nat)
    returns (replay': seq<Event>, out': nat, err': nat)
    requires Grows(j, k) && Replayed(j, replay, outStart, out, errStart, err)
    ensures Replayed(k, replay', outStart, out', errStart, err')
    ensures out <= out' && err <= err' && replay <= replay'
    ensures replay' == replay <==> !More(j.out, out) && !More(k.err, err)
    ensures replay' == replay ==> out' == out && err' == err
    ensures Left(j.out, out') + Left(k.err, err') < Left(j.out, out) + Left(k.err, err) || replay' == replay
  {
    hide Replayed, Grows;
    replay' := replay;
    var chunk: Option<Bytes>;
    chunk, out' := ReadChunk(j.out, out);
    if chunk.Some? {
      AppendOut(j, replay, chunk.value, outStart, out, out', errStart, err);
      replay' := replay + [Stdout(chunk.value)];
    }
    LaterReplayed(j, k, replay', outStart, out', errStart, err);
    chunk, err' := ReadChunk(k.err, err);
    if chunk.Some? {
      AppendErr(k, replay', chunk.value, outStart, out', errStart, err, err');
      replay' := replay' + [Stderr(chunk.value)];
    }
  }

  /** What an ending says about the record: `t` is the first look of the last poll. */
  ghost predicate Ended(at: nat -> Journal, t: nat, command: seq<string>, ending: Ending, outStart: nat, outEnd: nat,
                        errStart: nat, errEnd: nat)
  {
    var now := at(t + 7);
    match ending
    case ExitedWith(code) =>
      && StateFor(at, t + 3, command) == Complete(code) && now.request == Present(command) && now.exit == Present(code)
      && Drained(at, t, outStart, outEnd, errStart, errEnd)
    case DiedUnmarked =>
      && (StateFor(at, t + 3, command) == Died || StateFor(at, t + 3, command) == NoRequest)
      && Drained(at, t, outStart, outEnd, errStart, errEnd)
    case Mismatched => now.request.Present? && now.request.value != command
    case WasDegraded => now.degraded
    case Detached => false
  }

  /** The poll that began at `t` had no reason to end: the record runs, or a file had more. */
  ghost predicate GoesOn(at: nat -> Journal, t: nat, command: seq<string>, outStart: nat, errStart: nat) {
    && !at(t).degraded
    && (StateFor(at, t + 3, command) == Running || More(at(t + 1).out, outStart) || More(at(t + 2).err, errStart))
  }

  /** An attach can end before its first poll only by a mismatch or the degraded marker. */
  ghost predicate Justified(at: nat -> Journal, command: seq<string>, ending: Ending, used: nat, outStart: nat,
                            outEnd: nat, errStart: nat, errEnd: nat)
  {
    if ending.Detached? then used > 0 ==> GoesOn(at, PollAt(used - 1), command, outStart, errStart)
    else if used > 0 then Ended(at, PollAt(used - 1), command, ending, outStart, outEnd, errStart, errEnd)
    else
      || (ending.Mismatched? && at(FIRST_POLL).request.Present? && at(FIRST_POLL).request.value != command)
      || (ending.WasDegraded? && at(FIRST_POLL).degraded)
  }

  /** With no progress the poll must end; for a settled record with its recorded exit. */
  ghost predicate Moves(at: nat -> Journal, t: nat, command: seq<string>, progressed: bool, verdict: Option<Ending>,
                        before: nat, after: nat)
  {
    && (Foreign(at, command) && !progressed ==> verdict.Some?)
    && (Settled(at, command) ==>
          if progressed then verdict.None? && after < before else verdict == Some(ExitedWith(at(0).exit.value)))
  }

  lemma SpansEnd(at: nat -> Journal, t: nat, replay: seq<Event>, outStart: nat, out: nat, errStart: nat, err: nat)
    requires Replayed(at(t + 1), replay, outStart, out, errStart, err) && Grows(at(t + 1), at(t + 2))
    ensures !More(at(t + 1).out, out) && !More(at(t + 2).err, err) ==> Drained(at, t, outStart, out, errStart, err)
  {
    hide Outs, Errs;
  }

  lemma Looks(at: nat -> Journal, t: nat)
    requires Evolves(at)
    ensures Grows(at(t), at(t + 1)) && Grows(at(t + 1), at(t + 2))
    ensures Grows(at(t + 2), at(t + 7)) && Grows(at(t), at(t + 7))
    ensures Grows(at(t + 3), at(t + 7)) && Grows(at(t + 4), at(t + 7))
    ensures Grows(at(0), at(t + 1)) && Grows(at(0), at(t + 2)) && Grows(at(0), at(t + 3)) && Grows(at(0), at(t + 4))
  {
  }

  /** How the state read ends a poll; output still coming holds back all but a mismatch. */
  function Verdict(state: AttachState, progressed: bool): Option<Ending> {
    match state
    case Complete(code) => if progressed then None else Some(ExitedWith(code))
    case Mismatch => Some(Mismatched)
    case Died => if progressed then None else Some(DiedUnmarked)
    case NoRequest => if progressed then None else Some(DiedUnmarked)
    case Running => None
  }

  lemma PollMoves(at: nat -> Journal, t: nat, command: seq<string>, progressed: bool, out: nat, out': nat, err: nat,
                  err': nat)
    requires Evolves(at) && !at(t).degraded
    requires progressed || (!More(at(t + 1).out, out) && !More(at(t + 2).err, err))
    requires progressed ==>
               Left(at(t + 1).out, out') + Left(at(t + 2).err, err')
               < Left(at(t + 1).out, out) + Left(at(t + 2).err, err)
    ensures Moves(at, t, command, progressed, Verdict(StateFor(at, t + 3, command), progressed),
                  Left(at(0).out, out) + Left(at(0).err, err), Left(at(0).out, out') + Left(at(0).err, err'))
  {
    Looks(at, t);
    hide Evolves, More;
  }

  lemma PollEnds(at: nat -> Journal, t: nat, command: seq<string>, outStart: nat, out: nat, errStart: nat, err: nat,
                 progressed: bool)
    requires Evolves(at) && (progressed || Drained(at, t, outStart, out, errStart, err))
    ensures var verdict := Verdict(StateFor(at, t + 3, command), progressed);
            verdict.Some? ==>
              !verdict.value.Detached? && Ended(at, t, command, verdict.value, outStart, out, errStart, err)
  {
    Looks(at, t);
    hide Evolves, Drained;
  }

  method Poll(at: nat -> Journal, t: nat, command: seq<string>, replay: seq<Event>, ghost outStart: nat, out: nat,
              ghost errStart: nat, err: nat)
    returns (replay': seq<Event>, out': nat, err': nat, verdict: Option<Ending>)
    requires Evolves(at) && Replayed(at(t), replay, outStart, out, errStart, err)
    ensures Replayed(at(t + 7), replay', outStart, out', errStart, err') && replay <= replay'
    ensures verdict.Some? ==>
              !verdict.value.Detached? && Ended(at, t, command, verdict.value, outStart, out', errStart, err')
    ensures verdict.None? ==> GoesOn(at, t, command, outStart, errStart)
    ensures replay' == replay <==> at(t).degraded || (!More(at(t + 1).out, out) && !More(at(t + 2).err, err))
    ensures Moves(at, t, command, replay' != replay, verdict, Left(at(0).out, out) + Left(at(0).err, err),
                  Left(at(0).out, out') + Left(at(0).err, err'))
    ensures verdict
            == if at(t).degraded then Some(WasDegraded) else Verdict(StateFor(at, t + 3, command), replay' != replay)
  {
    Looks(at, t);
    hide Evolves;
    if at(t).degraded {
      LaterReplayed(at(t), at(t + 7), replay, outStart, out, errStart, err);
      return replay, out, err, Some(WasDegraded);
    }
    LaterReplayed(at(t), at(t + 1), replay, outStart, out, errStart, err);
    replay', out', err' := PollFiles(at(t + 1), at(t + 2), replay, outStart, out, errStart, err);
    LaterReplayed(at(t + 2), at(t + 7), replay', outStart, out', errStart, err');
    SpansEnd(at, t, replay, outStart, out, errStart, err);
    assert outStart <= out && errStart <= err;
    hide Replayed, Outs, Errs, StateFor, Verdict, Moves, Ended, Drained, Grows;
    verdict := Verdict(StateFor(at, t + 3, command), |replay'| > |replay|);
    PollMoves(at, t, command, replay' != replay, out, out', err, err');
    PollEnds(at, t, command, outStart, out', errStart, err', replay' != replay);
    PollGoesOn(at, t, command, replay' != replay);
  }

  lemma PollGoesOn(at: nat -> Journal, t: nat, command: seq<string>, progressed: bool)
    ensures Verdict(StateFor(at, t + 3, command), progressed).None? ==>
              StateFor(at, t + 3, command) == Running || progressed
  {
    hide StateFor;
  }

  /** The loop before its poll number `used`. */
  ghost predicate Going(at: nat -> Journal, command: seq<string>, replay: seq<Event>, outStart: nat, out: nat,
                        errStart: nat, err: nat, used: nat)
  {
    && (used == 0 ==> replay == [] && out == outStart && err == errStart)
    && (used > 0 && Foreign(at, command) ==> replay != [] && Leaks(at, outStart, errStart))
    && (Settled(at, command) ==>
          used + Left(at(0).out, out) + Left(at(0).err, err) <= Left(at(0).out, outStart) + Left(at(0).err, errStart))
  }

  /** What the loop's end says of a foreign record and of a settled one. */
  ghost predicate Outcome(at: nat -> Journal, command: seq<string>, replay: seq<Event>, outStart: nat, errStart: nat,
                          polls: nat, ending: Ending)
  {
    && (Foreign(at, command) ==> (replay != [] <==> polls > 0 && Leaks(at, outStart, errStart)))
    && (Settled(at, command) && polls > Left(at(0).out, outStart) + Left(at(0).err, errStart) ==>
          ending == ExitedWith(at(0).exit.value))
  }

  lemma PollGoes(at: nat -> Journal, command: seq<string>, replay: seq<Event>, replay': seq<Event>, outStart: nat,
                 out: nat, out': nat, errStart: nat, err: nat, err': nat, used: nat, polls: nat,
                 verdict: Option<Ending>)
    requires Going(at, command, replay, outStart, out, errStart, err, used) && used < polls && replay <= replay'
    requires var t := PollAt(used);
             replay' == replay <==> at(t).degraded || (!More(at(t + 1).out, out) && !More(at(t + 2).err, err))
    requires Moves(at, PollAt(used), command, replay' != replay, verdict, Left(at(0).out, out) + Left(at(0).err, err),
                   Left(at(0).out, out') + Left(at(0).err, err'))
    ensures verdict.None? ==> Going(at, command, replay', outStart, out', errStart, err', used + 1)
    ensures verdict.Some? ==> Outcome(at, command, replay', outStart, errStart, polls, verdict.value)
  {
    hide Foreign, Settled, Left, More;
  }

  /** One poll of the loop. */
  method PollOnce(at: nat -> Journal, command: seq<string>, replay: seq<Event>, ghost outStart: nat, out: nat,
                  ghost errStart: nat, err: nat, used: nat, ghost polls: nat)
    returns (replay': seq<Event>, out': nat, err': nat, verdict: Option<Ending>)
    requires Evolves(at) && used < polls && Replayed(at(PollAt(used)), replay, outStart, out, errStart, err)
    requires Going(at, command, replay, outStart, out, errStart, err, used)
    ensures Replayed(at(PollAt(used + 1)), replay', outStart, out', errStart, err')
    ensures verdict.None? ==> Going(at, command, replay', outStart, out', errStart, err', used + 1)
                              && GoesOn(at, PollAt(used), command, outStart, errStart)
    ensures verdict.Some? ==> Justified(at, command, verdict.value, used + 1, outStart, out', errStart, err')
                              && !verdict.value.Detached?
                              && Outcome(at, command, replay', outStart, errStart, polls, verdict.value)
  {
    hide Going, Evolves, StateFor, Outs, Errs, Replayed, Ended, Foreign, Settled, Moves, Left, Verdict, More, Outcome,
         GoesOn;
    replay', out', err', verdict := Poll(at, PollAt(used), command, replay, outStart, out, errStart, err);
    PollGoes(at, command, replay, replay', outStart, out, out', errStart, err, err', used, polls, verdict);
  }

  method ReplayLoop(at: nat -> Journal, command: seq<string>, outStart: nat, errStart: nat, polls: nat)
    returns (replay: seq<Event>, ending: Ending, outEnd: nat, errEnd: nat, used: nat)
    requires Evolves(at)
    ensures used <= polls && (ending.Detached? ==> used == polls)
    ensures Replayed(at(PollAt(used)), replay, outStart, outEnd, errStart, errEnd)
    ensures Justified(at, command, ending, used, outStart, outEnd, errStart, errEnd)
    ensures Outcome(at, command, replay, outStart, errStart, polls, ending)
  {
    replay, outEnd, errEnd, used := [], outStart, errStart, 0;
    assert Replayed(at(PollAt(0)), [], outStart, outStart, errStart, errStart);
    assert Going(at, command, [], outStart, outStart, errStart, errStart, 0);
    hide Going, Evolves, Replayed, Outcome, GoesOn, Ended, Justified;
    while used < polls
      invariant used <= polls
      invariant Replayed(at(PollAt(used)), replay, outStart, outEnd, errStart, errEnd)
      invariant Going(at, command, replay, outStart, outEnd, errStart, errEnd, used)
      invariant used > 0 ==> GoesOn(at, PollAt(used - 1), command, outStart, errStart)
    {
      var verdict;
      replay, outEnd, errEnd, verdict := PollOnce(at, command, replay, outStart, outEnd, errStart, errEnd, used, polls);
      used := used + 1;
      if verdict.Some? {
        return replay, verdict.value, outEnd, errEnd, used;
      }
    }
    GoneDetached(at, command, replay, outStart, outEnd, errStart, errEnd, used);
    ending := Detached;
  }

  lemma GoneDetached(at: nat -> Journal, command: seq<string>, replay: seq<Event>, outStart: nat, out: nat,
                     errStart: nat, err: nat, polls: nat)
    requires Going(at, command, replay, outStart, out, errStart, err, polls)
    requires polls > 0 ==> GoesOn(at, PollAt(polls - 1), command, outStart, errStart)
    ensures Outcome(at, command, replay, outStart, errStart, polls, Detached)
    ensures Justified(at, command, Detached, polls, outStart, out, errStart, err)
  {
    hide Foreign, Settled, More, GoesOn;
  }

  /** A record complete when the attach began, and polls enough: both files whole, then the
      recorded exit. */
  ghost predicate SettledEnds(at: nat -> Journal, command: seq<string>, replay: seq<Event>, ending: Ending,
                              outStart: nat, errStart: nat, polls: nat)
  {
    Settled(at, command) && polls > Left(at(0).out, outStart) + Left(at(0).err, errStart) ==>
      && ending == ExitedWith(at(0).exit.value)
      && Outs(replay) == Rest(at(0).out, outStart) && Errs(replay) == Rest(at(0).err, errStart)
  }

  /** Another command's record: no byte and a refusal if it is published in time, and
      otherwise a byte exactly when the first poll finds one. */
  ghost predicate ForeignEnds(at: nat -> Journal, command: seq<string>, replay: seq<Event>, ending: Ending,
                              outStart: nat, errStart: nat, polls: nat)
  {
    Foreign(at, command) ==>
      if at(LAST_PROBE).request.Present? then
        replay == [] && (ending == Mismatched || (ending == WasDegraded && at(1).degraded))
      else replay != [] <==> !at(1).degraded && polls > 0 && Leaks(at, outStart, errStart)
  }

  /** A wrapper that finishes properly, and no degradation: the recorded exit, unless the last
      poll met the race, and then the attach calls it dead. */
  ghost predicate OwnedEnds(at: nat -> Journal, command: seq<string>, ending: Ending, used: nat) {
    OwnedToTheEnd(at, command) && (forall t: nat :: !at(t).degraded) && !ending.Detached? ==>
      && used > 0 && (ending.ExitedWith? || ending.DiedUnmarked?)
      && (ending.DiedUnmarked? <==> Raced(at, PollAt(used - 1) + 3))
  }

  /** An attach of at most `polls` polls. `used` says how many it took. */
  method Attach(at: nat -> Journal, command: seq<string>, outStart: nat, errStart: nat, polls: nat)
    returns (replay: seq<Event>, ending: Ending, outEnd: nat, errEnd: nat, used: nat)
    requires Evolves(at)
    // However far it got, each stream's replay is the file between the two offsets.
    ensures used <= polls && (ending.Detached? ==> used == polls)
    ensures Replayed(at(PollAt(used)), replay, outStart, outEnd, errStart, errEnd)
    ensures Justified(at, command, ending, used, outStart, outEnd, errStart, errEnd)
    // How it ends.
    ensures SettledEnds(at, command, replay, ending, outStart, errStart, polls)
    ensures ForeignEnds(at, command, replay, ending, outStart, errStart, polls)
    ensures OwnedEnds(at, command, ending, used)
    ensures ending.ExitedWith? ==> used > 0 && WholeExactly(at, PollAt(used - 1), replay, outStart, errStart)
  {
    hide SettledEnds, ForeignEnds, OwnedEnds, Justified, Replayed, WholeExactly, Outcome, Evolves, StateFor;
    if at(0).request.Present? && at(0).request.value != command {
      EndsEarly(at, command, Mismatched, outStart, errStart, polls);
      return [], Mismatched, outStart, errStart, 0;
    }
    if at(1).degraded {
      EndsEarly(at, command, WasDegraded, outStart, errStart, polls);
      return [], WasDegraded, outStart, errStart, 0;
    }
    var state := AwaitRequest(at, command);
    if state.Mismatch? {
      EndsEarly(at, command, Mismatched, outStart, errStart, polls);
      return [], Mismatched, outStart, errStart, 0;
    }
    replay, ending, outEnd, errEnd, used := ReplayLoop(at, command, outStart, errStart, polls);
    EndsLate(at, command, replay, ending, outStart, outEnd, errStart, errEnd, used, polls);
  }

  lemma EndsEarly(at: nat -> Journal, command: seq<string>, ending: Ending, outStart: nat, errStart: nat, polls: nat)
    requires Evolves(at)
    requires || (ending.Mismatched? && at(LAST_PROBE).request.Present? && at(LAST_PROBE).request.value != command)
             || (ending.Mismatched? && at(0).request.Present? && at(0).request.value != command)
             || (ending.WasDegraded? && at(1).degraded && (at(0).request.Present? ==> at(0).request.value == command))
    ensures Replayed(at(PollAt(0)), [], outStart, outStart, errStart, errStart)
    ensures Justified(at, command, ending, 0, outStart, outStart, errStart, errStart)
    ensures SettledEnds(at, command, [], ending, outStart, errStart, polls)
    ensures ForeignEnds(at, command, [], ending, outStart, errStart, polls) && OwnedEnds(at, command, ending, 0)
  {
    assert Grows(at(0), at(LAST_PROBE)) && Grows(at(LAST_PROBE), at(FIRST_POLL)) && Grows(at(1), at(FIRST_POLL));
    assert Grows(at(0), at(FIRST_POLL));
    hide Evolves;
  }

  lemma EndsLate(at: nat -> Journal, command: seq<string>, replay: seq<Event>, ending: Ending, outStart: nat,
                 outEnd: nat, errStart: nat, errEnd: nat, used: nat, polls: nat)
    requires Evolves(at) && Replayed(at(PollAt(used)), replay, outStart, outEnd, errStart, errEnd)
    requires Justified(at, command, ending, used, outStart, outEnd, errStart, errEnd)
    requires Outcome(at, command, replay, outStart, errStart, polls, ending) && !at(1).degraded
    requires at(LAST_PROBE).request.Present? ==> at(LAST_PROBE).request.value == command
    ensures SettledEnds(at, command, replay, ending, outStart, errStart, polls)
    ensures ForeignEnds(at, command, replay, ending, outStart, errStart, polls)
    ensures OwnedEnds(at, command, ending, used)
    ensures ending.ExitedWith? ==> used > 0 && WholeExactly(at, PollAt(used - 1), replay, outStart, errStart)
  {
    if ending.ExitedWith? {
      assert used > 0 && Ended(at, PollAt(used - 1), command, ending, outStart, outEnd, errStart, errEnd);
      WholeIff(at, PollAt(used - 1), command, ending.code, replay, outStart, outEnd, errStart, errEnd);
      if Settled(at, command) { SettledWhole(at, command, replay, outStart, outEnd, errStart, errEnd, used); }
    }
    OwnedEndsSo(at, command, ending, used, outStart, outEnd, errStart, errEnd);
    hide Evolves, Replayed, Justified, OwnedEnds, WholeExactly, Outs, Errs;
  }

  /** Drained offsets over files that no longer grow: the whole rest was replayed. */
  lemma SettledWhole(at: nat -> Journal, command: seq<string>, replay: seq<Event>, outStart: nat, outEnd: nat,
                     errStart: nat, errEnd: nat, used: nat)
    requires Evolves(at) && Settled(at, command) && used > 0
    requires Replayed(at(PollAt(used)), replay, outStart, outEnd, errStart, errEnd)
    requires Drained(at, PollAt(used - 1), outStart, outEnd, errStart, errEnd)
    ensures Outs(replay) == Rest(at(0).out, outStart) && Errs(replay) == Rest(at(0).err, errStart)
  {
    var t := PollAt(used - 1);
    assert Grows(at(0), at(t + 1)) && Grows(at(0), at(t + 2)) && Grows(at(0), at(PollAt(used)));
    hide Outs, Errs;
  }

  /** Bytes of the file between the offsets, and then the closing message. */
  ghost predicate SpanAndTail(bytes: Bytes, file: Option<Bytes>, from: nat, to: nat, tail: Bytes) {
    exists span :: IsSpan(span, file, from, to) && bytes == span + tail
  }

  /** What a settled record, or another command's, sends over the wire. */
  ghost predicate SettledWire(at: nat -> Journal, command: seq<string>, wire: seq<Event>, outStart: nat, errStart: nat,
                              polls: nat)
  {
    Settled(at, command) && polls > Left(at(0).out, outStart) + Left(at(0).err, errStart) ==>
      && Outs(wire) == Rest(at(0).out, outStart) && Errs(wire) == Rest(at(0).err, errStart)
      && Ends(wire, Exit(at(0).exit.value))
  }

  ghost predicate ForeignWire(at: nat -> Journal, command: seq<string>, wire: seq<Event>, ending: Ending) {
    Foreign(at, command) && at(LAST_PROBE).request.Present? ==>
      Outs(wire) == [] && (ending.Mismatched? ==> wire == [Started, Refused])
  }

  /** An attach on the wire: stdout is the file between the two offsets, and stderr that span
      and then at most the closing message. One that ends by itself is a whole conversation,
      and its last frame says how it ended. */
  method ServeAttach(at: nat -> Journal, command: seq<string>, outStart: nat, errStart: nat, polls: nat, message: Bytes)
    returns (wire: seq<Event>, ending: Ending, outEnd: nat, errEnd: nat, used: nat)
    requires Evolves(at)
    ensures used <= polls && (ending.Detached? ==> used == polls)
    ensures IsSpan(Outs(wire), at(PollAt(used)).out, outStart, outEnd)
    ensures SpanAndTail(Errs(wire), at(PollAt(used)).err, errStart, errEnd, Closing(ending, message))
    ensures !ending.Detached? ==> Conversation(wire) && Closes(ending, wire[|wire| - 1])
    ensures SettledWire(at, command, wire, outStart, errStart, polls)
    ensures ForeignWire(at, command, wire, ending)
    ensures Justified(at, command, ending, used, outStart, outEnd, errStart, errEnd)
    ensures OwnedEnds(at, command, ending, used)
  {
    var replay;
    replay, ending, outEnd, errEnd, used := Attach(at, command, outStart, errStart, polls);
    AttachedRelays(replay, ending, message);
    wire := Wire(Attached(replay, ending, message));
    if !ending.Detached? {
      AttachedConverses(replay, ending, message);
    }
    hide Evolves, Justified, OwnedEnds, WholeExactly, Conversation, Outs, Errs, Foreign, Settled, Rest, Left;
    RelaysSpans(wire, replay, ending, message, at(PollAt(used)), outStart, outEnd, errStart, errEnd);
    SettledRelays(at, command, wire, replay, ending, message, outStart, errStart, polls);
    if ending.Mismatched? && replay == [] { assert wire == [Started, Refused]; }
  }

  lemma RelaysSpans(wire: seq<Event>, replay: seq<Event>, ending: Ending, message: Bytes, j: Journal, outStart: nat,
                    outEnd: nat, errStart: nat, errEnd: nat)
    requires Relays(wire, replay, ending, message) && Replayed(j, replay, outStart, outEnd, errStart, errEnd)
    ensures IsSpan(Outs(wire), j.out, outStart, outEnd)
    ensures SpanAndTail(Errs(wire), j.err, errStart, errEnd, Closing(ending, message))
  {
    hide Outs, Errs;
  }

  lemma SettledRelays(at: nat -> Journal, command: seq<string>, wire: seq<Event>, replay: seq<Event>, ending: Ending,
                      message: Bytes, outStart: nat, errStart: nat, polls: nat)
    requires Relays(wire, replay, ending, message)
    requires SettledEnds(at, command, replay, ending, outStart, errStart, polls)
    ensures SettledWire(at, command, wire, outStart, errStart, polls)
  {
    hide Outs, Errs, Settled, Rest, Left;
    assert Errs(replay) + [] == Errs(replay);
  }

  // ---- Where a concurrent finish costs the tail -----------------------------------------------------

  function Length(file: Option<Bytes>): nat { if file.Some? then |file.value| else 0 }

  /** No output past `offset` came between the two looks. */
  predicate Unmoved(look: Option<Bytes>, later: Option<Bytes>, offset: nat) {
    Length(later) <= Length(look) || Length(later) <= offset
  }

  /** At the exit read of the poll that began at `t` the files are final, and the replay is
      whole exactly when they had not grown since the poll looked at them; it is whole for
      certain if exit.json was there by then. */
  ghost predicate WholeExactly(at: nat -> Journal, t: nat, replay: seq<Event>, outStart: nat, errStart: nat) {
    && (forall k: nat | k >= t + 4 :: at(k).out == at(t + 4).out && at(k).err == at(t + 4).err)
    && (Outs(replay) == Rest(at(t + 4).out, outStart) <==> Unmoved(at(t + 1).out, at(t + 4).out, outStart))
    && (Errs(replay) == Rest(at(t + 4).err, errStart) <==> Unmoved(at(t + 2).err, at(t + 4).err, errStart))
    && (at(t + 1).exit.Present? ==>
          Outs(replay) == Rest(at(t + 4).out, outStart) && Errs(replay) == Rest(at(t + 4).err, errStart))
  }

  /** What was replayed is what the last look showed. */
  lemma LastLook(bytes: Bytes, look: Option<Bytes>, later: Option<Bytes>, start: nat, end: nat)
    requires IsSpan(bytes, later, start, end) && AtEnd(look, start, end) && Appended(look, later)
    ensures bytes == Rest(look, start)
  {
  }

  lemma RestIff(look: Option<Bytes>, later: Option<Bytes>, start: nat)
    requires Appended(look, later)
    ensures Rest(look, start) == Rest(later, start) <==> Unmoved(look, later, start)
  {
    if look.Some? && |look.value| == |later.value| { assert look.value == later.value; }
  }

  lemma WholeIff(at: nat -> Journal, t: nat, command: seq<string>, code: Option<int>, replay: seq<Event>, outStart: nat,
                 outEnd: nat, errStart: nat, errEnd: nat)
    requires Evolves(at) && Ended(at, t, command, ExitedWith(code), outStart, outEnd, errStart, errEnd)
    requires Replayed(at(t + 7), replay, outStart, outEnd, errStart, errEnd)
    ensures WholeExactly(at, t, replay, outStart, errStart)
  {
    assert Grows(at(t + 1), at(t + 4)) && Grows(at(t + 2), at(t + 4)) && Grows(at(t + 4), at(t + 7));
    assert Grows(at(t + 1), at(t + 2)) && forall k: nat | k >= t + 4 :: Grows(at(t + 4), at(k));
    hide Evolves, Outs, Errs;
    assert at(t + 4).exit == Present(code);
    LastLook(Outs(replay), at(t + 1).out, at(t + 7).out, outStart, outEnd);
    LastLook(Errs(replay), at(t + 2).err, at(t + 7).err, errStart, errEnd);
    RestIff(at(t + 1).out, at(t + 4).out, outStart);
    RestIff(at(t + 2).err, at(t + 4).err, errStart);
  }

  lemma OwnedEndsSo(at: nat -> Journal, command: seq<string>, ending: Ending, used: nat, outStart: nat, outEnd: nat,
                    errStart: nat, errEnd: nat)
    requires Justified(at, command, ending, used, outStart, outEnd, errStart, errEnd)
    ensures OwnedEnds(at, command, ending, used)
  {
    if OwnedToTheEnd(at, command) && used > 0 { CalledDeadIff(at, PollAt(used - 1) + 3, command); }
  }

  /** The last byte and the exit marker land right after the first poll looked at the files. */
  function Hurried(k: nat): Journal {
    if k < FIRST_POLL + 3 then Journal(Present(["true"]), Absent, Present(true), Absent, false, false, None, None)
    else Journal(Present(["true"]), Present(Some(0)), Present(true), Absent, false, false, Some([65]), None)
  }

  method LosesTail() returns (replay: seq<Event>, ending: Ending)
    ensures Evolves(Hurried) && Hurried(PollAt(1)).out == Some([65])
    ensures ending == ExitedWith(Some(0)) && Outs(replay) == []
  {
    var out, err, used;
    replay, ending, out, err, used := Attach(Hurried, ["true"], 0, 0, 1);
  }

  /** The marker lands and the wrapper leaves between the two reads of the first poll. */
  function Finishing(k: nat): Journal {
    if k < FIRST_POLL + 5 then Journal(Present(["true"]), Absent, Present(true), Absent, false, false, None, None)
    else Journal(Present(["true"]), Present(Some(0)), Present(false), Absent, false, false, None, None)
  }

  /** A command that finished with exit zero is reported as dead without an exit. */
  method CalledDead() returns (replay: seq<Event>, ending: Ending)
    ensures OwnedToTheEnd(Finishing, ["true"]) && Finishing(PollAt(1)).exit == Present(Some(0))
    ensures ending == DiedUnmarked
  {
    FinishingRaces();
    hide OwnedToTheEnd, StateFor;
    var out, err, used;
    replay, ending, out, err, used := Attach(Finishing, ["true"], 0, 0, 1);
  }

  lemma FinishingRaces()
    ensures OwnedToTheEnd(Finishing, ["true"]) && StateFor(Finishing, FIRST_POLL + 3, ["true"]) == Died
  {
  }

  /** Another command's request is published only after the bounded wait, its output with it. */
  function Late(k: nat): Journal {
    if k < FIRST_POLL + 1 then Journal(Absent, Absent, Absent, Absent, true, false, None, None)
    else Journal(Present(["theirs"]), Absent, Present(true), Absent, true, false, Some([65]), None)
  }

  method LeaksLate() returns (replay: seq<Event>, ending: Ending)
    ensures Evolves(Late) && Foreign(Late, ["mine"]) && replay != []
  {
    var out, err, used;
    assert ["theirs"][0] != ["mine"][0];
    replay, ending, out, err, used := Attach(Late, ["mine"], 0, 0, 1);
  }
}
