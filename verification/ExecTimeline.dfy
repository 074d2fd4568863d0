/** What attaching clients see of the durable exec protocol: the looks at the record during any
    run of it without a removal form a timeline as `TailJournal` takes it. */
module ExecTimeline {
  import opened Wrappers
  import opened Bytes
  import opened ExecRecord
  import T = TailJournal
  import R = ExecRuns

  /** What the files in the directory at the path say, beyond their being there. */
  datatype Contents = Contents(command: seq<string>, code: Option<int>, degraded: bool, out: Option<Bytes>,
                               err: Option<Bytes>)

  const EMPTY := Contents([], None, false, None, None)

  datatype World = World(s: State, files: Contents)

  /** A step of the protocol, with what it writes: the command published, the exit code, output,
      and whether a failed write is marked. */
  datatype Move = Move(step: Step, command: seq<string>, code: Option<int>, out: Bytes, err: Bytes, marks: bool)

  function Append(file: Option<Bytes>, more: Bytes): Option<Bytes> {
    Some((if file.Some? then file.value else []) + more)
  }

  function Write(files: Contents, m: Move): Contents {
    match m.step
    case Mkdir(_) => EMPTY
    case Publish(_) => files.(command := m.command)
    case Degrade(_) => files.(degraded := true)
    case Output(_) =>
      files.(out := Append(files.out, m.out), err := Append(files.err, m.err), degraded := files.degraded || m.marks)
    case Finish(_) => files.(code := m.code)
    case _ => files.(degraded := files.degraded || m.marks)
  }

  ghost function Go(w: World, m: Move): World
    requires Enabled(w.s, m.step)
  {
    World(Do(w.s, m.step), Write(w.files, m))
  }

  ghost function Answer(s: State, pid: Option<nat>): T.File<bool> {
    if pid.Some? then T.Present(Alive(s, pid.value)) else T.Absent
  }

  /** The record as one look finds it. */
  ghost function Look(w: World): T.Journal {
    if w.s.dir.None? then T.Journal(T.Absent, T.Absent, T.Absent, T.Absent, false, false, None, None)
    else
      var f := w.s.dir.value;
      T.Journal(
        if f.created.Some? then T.Present(w.files.command) else T.Absent,
        if f.finished.Some? then T.Present(w.files.code) else T.Absent,
        Answer(w.s, f.owner), Answer(w.s, f.pid),
        w.s.clock < (if f.created.Some? then f.created.value else f.made) + SPAWN_GRACE_MS,
        w.files.degraded, w.files.out, w.files.err)
  }

  predicate Removes(step: Step) { step.Remove? || step.Refuse? }

  // ---- One step -----------------------------------------------------------------------------------

  /** A run that has not published its request has none in its directory. */
  ghost predicate Unpublished(s: State) {
    s.dir.Some? && At(s, s.dir.value.inc, Made) ==> s.dir.value.created.None?
  }

  /** Only the run the directory belongs to writes into it, and it writes each file once. */
  lemma WriterOwns(s: State, step: Step)
    requires Inv(s) && Unpublished(s) && Enabled(s, step)
    ensures step.Publish? ==> s.dir.Some? && s.dir.value.inc == step.run && s.dir.value.created.None?
    ensures step.Output? || step.Finish? ==> s.dir.Some? && s.dir.value.inc == step.run && s.dir.value.finished.None?
  {
    if step.Publish? { assert s.runs[step.run].Needed(); }
    if step.Output? || step.Finish? { assert s.runs[step.run].Needed(); }
  }

  /** Which files of the directory a step can touch. */
  lemma FilesStay(s: State, step: Step)
    requires Enabled(s, step) && !Removes(step) && s.dir.Some?
    ensures var f, t := s.dir.value, Do(s, step);
            && t.dir.Some? && t.dir.value.inc == f.inc
            && (!step.Publish? ==> t.dir.value.created == f.created) && (step.Publish? ==> t.dir.value.created.Some?)
            && (!step.Finish? ==> t.dir.value.finished == f.finished) && !step.Mkdir?
            && (f.owner.Some? ==> t.dir.value.owner.Some?)
  {
    hide Alive;
  }

  lemma KeepsUnpublished(s: State, step: Step)
    requires Inv(s) && Unpublished(s) && Enabled(s, step)
    ensures Unpublished(Do(s, step))
  {
    WriterOwns(s, step);
    hide Alive, Inv;
  }

  lemma StepGrows(w: World, m: Move)
    requires Inv(w.s) && Unpublished(w.s) && Enabled(w.s, m.step) && !Removes(m.step)
    ensures T.Grows(Look(w), Look(Go(w, m)))
  {
    if w.s.dir.Some? {
      WriterOwns(w.s, m.step);
      FilesStay(w.s, m.step);
      hide Alive, Inv, Do, Enabled, Unpublished;
    }
  }

  // ---- Whole runs -----------------------------------------------------------------------------------

  /** The states of a run without a removal. */
  ghost predicate Runs(trace: seq<World>, moves: seq<Move>) {
    && |trace| == |moves| + 1 && Inv(trace[0].s) && Unpublished(trace[0].s)
    && forall i | 0 <= i < |moves| :: Follows(trace[i], moves[i], trace[i + 1])
  }

  ghost predicate Follows(w: World, m: Move, next: World) {
    Enabled(w.s, m.step) && !Removes(m.step) && next == Go(w, m)
  }

  lemma {:induction false} SoundAt(trace: seq<World>, moves: seq<Move>, i: nat)
    requires Runs(trace, moves) && i < |trace|
    ensures Inv(trace[i].s) && Unpublished(trace[i].s)
  {
    if i > 0 {
      SoundAt(trace, moves, i - 1);
      assert Follows(trace[i - 1], moves[i - 1], trace[i]);
      hide Inv, Unpublished, Do, Enabled;
      Keeps(trace[i - 1].s, moves[i - 1].step);
      KeepsUnpublished(trace[i - 1].s, moves[i - 1].step);
    }
  }

  lemma GrowsOn(a: T.Journal, b: T.Journal, c: T.Journal)
    requires T.Grows(a, b) && T.Grows(b, c)
    ensures T.Grows(a, c)
  {
  }

  lemma {:induction false} RunGrows(trace: seq<World>, moves: seq<Move>, i: nat, j: nat)
    requires Runs(trace, moves) && i <= j < |trace|
    ensures T.Grows(Look(trace[i]), Look(trace[j]))
    decreases j
  {
    if i < j {
      RunGrows(trace, moves, i, j - 1);
      SoundAt(trace, moves, j - 1);
      assert Follows(trace[j - 1], moves[j - 1], trace[j]);
      hide Runs, Inv, Unpublished, Do, Enabled, Look;
      StepGrows(trace[j - 1], moves[j - 1]);
      GrowsOn(Look(trace[i]), Look(trace[j - 1]), Look(trace[j]));
    }
  }

  function Place(trace: seq<World>, at: nat): (i: nat)
    requires trace != []
    ensures i < |trace|
  {
    if at < |trace| then at else |trace| - 1
  }

  /** The k-th look falls at point `when(k)` of the run, and looks come in order. */
  ghost predicate Seen(at: nat -> T.Journal, trace: seq<World>, when: nat -> nat) {
    && trace != [] && (forall k: nat :: at(k) == Look(trace[Place(trace, when(k))]))
    && forall i: nat, j: nat | i <= j :: when(i) <= when(j)
  }

  /** Whenever it looks, a client sees a timeline that evolves. */
  lemma RunEvolves(trace: seq<World>, moves: seq<Move>, when: nat -> nat, at: nat -> T.Journal)
    requires Runs(trace, moves) && Seen(at, trace, when)
    ensures T.Evolves(at)
  {
    forall i: nat, j: nat | i <= j
      ensures T.Grows(at(i), at(j))
    {
      assert when(i) <= when(j);
      RunGrows(trace, moves, Place(trace, when(i)), Place(trace, when(j)));
    }
  }

  /** The record of `command` at the path, its wrapper there until the exit marker is. */
  ghost predicate Owned(w: World, inc: nat, command: seq<string>) {
    && w.s.dir.Some? && w.s.dir.value.inc == inc && w.s.dir.value.created.Some? && w.files.command == command
    && w.s.dir.value.owner.Some? && Staying(w.s, inc)
  }

  ghost predicate Staying(s: State, inc: nat) {
    inc in s.runs && (s.runs[inc].phase == Finished || s.runs[inc].wrapperUp)
  }

  /** A step of a run leaves its wrapper there, but for its death. */
  lemma OwnStepStays(s: State, step: Step, inc: nat)
    requires OfRun(step) && Enabled(s, step) && step.run in s.runs && Staying(s, inc) && s.runs[inc].Valid()
    requires step != WrapperDies(inc)
    ensures Staying(RunStep(s, step.run, step), inc)
  {
    hide Alive;
  }

  lemma RunStays(s: State, step: Step, inc: nat)
    requires Enabled(s, step) && Staying(s, inc) && step != WrapperDies(inc)
    requires s.nextInc !in s.runs && s.runs[inc].Valid()
    ensures Staying(Do(s, step), inc)
  {
    assert inc in s.runs;
    hide Alive, RunStep, Staying;
    if OfRun(step) {
      OwnStepStays(s, step, inc);
    } else {
      RunsKept(s, step);
      SameStaying(s, Do(s, step), inc);
    }
  }

  predicate OfRun(step: Step) {
    || step.Publish? || step.Degrade? || step.Abandon? || step.Refuse? || step.Spawn? || step.WriteOwner?
    || step.StartCommand? || step.WritePid? || step.Output? || step.CommandDies? || step.Finish? || step.WrapperDies?
  }

  /** The other steps leave the runs as they are, or add one. */
  lemma RunsKept(s: State, step: Step)
    requires Enabled(s, step) && !OfRun(step) && s.nextInc !in s.runs
    ensures forall i | i in s.runs :: i in Do(s, step).runs && Do(s, step).runs[i] == s.runs[i]
  {
    hide Alive, RunStep;
  }

  lemma SameStaying(s: State, t: State, inc: nat)
    requires Staying(s, inc) && inc in t.runs && t.runs[inc] == s.runs[inc]
    ensures Staying(t, inc)
  {
  }

  lemma StaysOwned(w: World, m: Move, inc: nat, command: seq<string>)
    requires Inv(w.s) && Unpublished(w.s) && Enabled(w.s, m.step) && !Removes(m.step) && Owned(w, inc, command)
    requires m.step == WrapperDies(inc) ==> w.s.runs[inc].phase == Finished
    ensures Owned(Go(w, m), inc, command)
  {
    WriterOwns(w.s, m.step);
    FilesStay(w.s, m.step);
    if m.step != WrapperDies(inc) { RunStays(w.s, m.step, inc); }
    hide Alive, Inv, Unpublished;
  }

  lemma LookOwned(w: World, inc: nat, command: seq<string>)
    requires Inv(w.s) && Owned(w, inc, command)
    ensures var j := Look(w);
            && j.request == T.Present(command) && j.owner.Present? && !j.exit.Corrupt?
            && (j.exit.Absent? ==> j.owner.value)
  {
    UpIsAlive(w.s);
    hide Alive;
  }

  lemma FollowsAt(trace: seq<World>, moves: seq<Move>, i: nat)
    requires Runs(trace, moves) && i < |moves|
    ensures |trace| == |moves| + 1 && Follows(trace[i], moves[i], trace[i + 1])
  {
  }

  lemma FinishedAt(trace: seq<World>, moves: seq<Move>, inc: nat, i: nat)
    requires |trace| == |moves| + 1 && StaysToFinish(trace, moves, inc)
    requires i < |moves| && moves[i].step == WrapperDies(inc)
    ensures inc in trace[i].s.runs && trace[i].s.runs[inc].phase == Finished
  {
  }

  lemma {:induction false} OwnedAt(trace: seq<World>, moves: seq<Move>, inc: nat, command: seq<string>, i: nat)
    requires Runs(trace, moves) && i < |trace| && Owned(trace[0], inc, command) && StaysToFinish(trace, moves, inc)
    ensures Owned(trace[i], inc, command)
  {
    hide Inv, Unpublished, Do, Enabled, Owned;
    if i > 0 {
      FollowsAt(trace, moves, i - 1);
      if moves[i - 1].step == WrapperDies(inc) { FinishedAt(trace, moves, inc, i - 1); }
      hide Runs, StaysToFinish;
      OwnedAt(trace, moves, inc, command, i - 1);
      SoundAt(trace, moves, i - 1);
      StaysOwned(trace[i - 1], moves[i - 1], inc, command);
    }
  }

  /** The wrapper does not die before its exit marker is written. */
  ghost predicate StaysToFinish(trace: seq<World>, moves: seq<Move>, inc: nat)
    requires |trace| == |moves| + 1
  {
    forall i | 0 <= i < |moves| && moves[i].step == WrapperDies(inc) ::
      inc in trace[i].s.runs && trace[i].s.runs[inc].phase == Finished
  }

  /** A wrapper that finishes properly gives the timeline of one. */
  lemma RunOwned(trace: seq<World>, moves: seq<Move>, when: nat -> nat, at: nat -> T.Journal, inc: nat,
                 command: seq<string>)
    requires Runs(trace, moves) && Seen(at, trace, when)
    requires Owned(trace[0], inc, command) && StaysToFinish(trace, moves, inc)
    ensures T.OwnedToTheEnd(at, command)
  {
    RunEvolves(trace, moves, when, at);
    forall k: nat
      ensures at(k).request == T.Present(command) && at(k).owner.Present? && !at(k).exit.Corrupt?
              && (at(k).exit.Absent? ==> at(k).owner.value)
    {
      var i := Place(trace, when(k));
      OwnedAt(trace, moves, inc, command, i);
      SoundAt(trace, moves, i);
      LookOwned(trace[i], inc, command);
    }
    hide Runs, Seen, T.Evolves;
  }

  // ---- What a look shows of the run -----------------------------------------------------------------

  function OutParts(moves: seq<Move>): seq<Bytes> {
    if moves == [] then []
    else OutParts(moves[..|moves| - 1]) + if moves[|moves| - 1].step.Output? then [moves[|moves| - 1].out] else []
  }

  function ErrParts(moves: seq<Move>): seq<Bytes> {
    if moves == [] then []
    else ErrParts(moves[..|moves| - 1]) + if moves[|moves| - 1].step.Output? then [moves[|moves| - 1].err] else []
  }

  /** The file these writes make. */
  function FileOf(parts: seq<Bytes>): Option<Bytes> {
    if parts == [] then None else Some(Flatten(parts))
  }

  /** A write of the run failed and was marked, or the run was degraded from the start. */
  predicate Marks(m: Move) { m.step.Degrade? || (m.marks && !m.step.Publish? && !m.step.Finish?) }

  ghost predicate Marked(moves: seq<Move>) {
    exists m | m in moves :: Marks(m)
  }

  ghost predicate Published(moves: seq<Move>, command: seq<string>) {
    exists m | m in moves :: m.step.Publish? && m.command == command
  }

  ghost predicate FinishedWith(moves: seq<Move>, code: Option<int>) {
    exists m | m in moves :: m.step.Finish? && m.code == code
  }

  /** The output files are what the moves wrote, in order, and degradation is marked exactly when
      one of them was. */
  ghost predicate Shows(files: Contents, moves: seq<Move>) {
    && files.out == FileOf(OutParts(moves)) && files.err == FileOf(ErrParts(moves))
    && (files.degraded <==> Marked(moves))
  }

  /** A recorded request and exit are those of the moves. */
  ghost predicate Tells(w: World, moves: seq<Move>) {
    && w.s.dir.Some?
    && (if w.s.dir.value.created.Some? then Published(moves, w.files.command)
        else forall m | m in moves :: !m.step.Publish?)
    && (if w.s.dir.value.finished.Some? then FinishedWith(moves, w.files.code)
        else forall m | m in moves :: !m.step.Finish?)
  }

  lemma AppendPart(parts: seq<Bytes>, more: Bytes)
    ensures FileOf(parts + [more]) == Append(FileOf(parts), more)
  {
    FlattenSnoc(parts, more);
  }

  lemma PartsOn(moves: seq<Move>, m: Move)
    ensures OutParts(moves + [m]) == OutParts(moves) + (if m.step.Output? then [m.out] else [])
    ensures ErrParts(moves + [m]) == ErrParts(moves) + (if m.step.Output? then [m.err] else [])
  {
    assert (moves + [m])[..|moves|] == moves;
  }

  lemma MarkedOn(moves: seq<Move>, m: Move)
    ensures Marked(moves + [m]) <==> Marked(moves) || Marks(m)
  {
    assert forall x :: x in moves + [m] <==> x in moves || x == m;
  }

  lemma ShowsOn(files: Contents, moves: seq<Move>, m: Move)
    requires Shows(files, moves) && !m.step.Mkdir?
    ensures Shows(Write(files, m), moves + [m])
  {
    PartsOn(moves, m);
    MarkedOn(moves, m);
    hide FileOf, Append, OutParts, ErrParts, Marked;
    if m.step.Output? {
      AppendPart(OutParts(moves), m.out);
      AppendPart(ErrParts(moves), m.err);
    } else {
      assert OutParts(moves) + [] == OutParts(moves) && ErrParts(moves) + [] == ErrParts(moves);
    }
  }

  lemma TellsOn(w: World, moves: seq<Move>, m: Move)
    requires Inv(w.s) && Unpublished(w.s) && Enabled(w.s, m.step) && !Removes(m.step) && Tells(w, moves)
    ensures Tells(Go(w, m), moves + [m])
  {
    WriterOwns(w.s, m.step);
    FilesStay(w.s, m.step);
    if m.step.Finish? { FinishMarks(w.s, m.step); }
    hide Do, Enabled, Inv, Unpublished, Removes;
    assert m in moves + [m];
    forall x | x in moves
      ensures x in moves + [m]
    {
    }
  }

  lemma FinishMarks(s: State, step: Step)
    requires Enabled(s, step) && step.Finish? && s.dir.Some?
    ensures Do(s, step).dir.Some? && Do(s, step).dir.value.finished.Some?
  {
  }

  /** Whenever it looks in a run from the making of the directory on, a client finds in the files
      exactly what the run wrote, in order; the request and the exit once they are written; and
      the degraded marker exactly when a write was marked. */
  lemma {:induction false} LookShows(trace: seq<World>, moves: seq<Move>, i: nat)
    requires Runs(trace, moves) && moves != [] && moves[0].step.Mkdir? && 1 <= i < |trace|
    ensures Shows(trace[i].files, moves[1..i]) && Tells(trace[i], moves[1..i])
    ensures Look(trace[i]).out == FileOf(OutParts(moves[1..i])) && Look(trace[i]).err == FileOf(ErrParts(moves[1..i]))
  {
    FollowsAt(trace, moves, i - 1);
    if i == 1 {
      StartsShown(trace[0], moves[0]);
      assert moves[1..1] == [];
    } else {
      SoundAt(trace, moves, i - 1);
      var m := moves[i - 1];
      assert moves[1..i] == moves[1..i - 1] + [m];
      hide Runs, Inv, Unpublished, Do, Enabled, Shows, Tells, Look;
      LookShows(trace, moves, i - 1);
      TellsSome(trace[i - 1], moves[1..i - 1]);
      FilesStay(trace[i - 1].s, m.step);
      ShowsOn(trace[i - 1].files, moves[1..i - 1], m);
      TellsOn(trace[i - 1], moves[1..i - 1], m);
    }
    hide Runs, Do, Enabled, OutParts, ErrParts, FileOf;
  }

  lemma StartsShown(w: World, m: Move)
    requires Enabled(w.s, m.step) && m.step.Mkdir?
    ensures Shows(Go(w, m).files, []) && Tells(Go(w, m), [])
  {
  }

  lemma TellsSome(w: World, moves: seq<Move>)
    requires Tells(w, moves)
    ensures w.s.dir.Some?
  {
  }

  // ---- Two judges of one record ---------------------------------------------------------------------

  /** A record nobody touches, with its request and no exit marker: an attach calls it running or
      dead. What it calls running the collector keeps, and what it calls dead the collector still
      takes for live exactly when a recorded wrapper is gone with its command alive, or with no
      pid recorded in the spawn grace. */
  lemma JudgesAgree(w: World, at: nat -> T.Journal, t: nat)
    requires w.s.dir.Some? && w.s.dir.value.created.Some? && w.s.dir.value.finished.None?
    requires forall k: nat :: at(k) == Look(w)
    ensures var f, state := w.s.dir.value, T.StateFor(at, t, w.files.command);
            && (state == T.Running || state == T.Died)
            && (state == T.Running ==> R.AppearsLive(w.s, f) && !R.Collectable(w.s))
            && (state == T.Died && R.AppearsLive(w.s, f) <==>
                  f.owner.Some? && !Alive(w.s, f.owner.value) && R.PidLive(w.s))
  {
    assert at(t) == at(t + 1) == at(t + 2) == at(t + 3) == Look(w);
    hide Alive;
  }

  /** A wrapper that dies under its running command, its pid given to nobody else: an attach calls
      the record dead, and the collector keeps it. */
  lemma OrphanedCommand(s: State, i: nat, files: Contents, at: nat -> T.Journal, t: nat)
    requires Inv(s) && s.dir.Some? && s.dir.value.inc == i && s.dir.value.created.Some? && At(s, i, Recorded)
    requires s.runs[i].wrapperUp && s.runs[i].commandUp && !Alive(Do(s, WrapperDies(i)), s.runs[i].wrapper)
    requires forall k: nat :: at(k) == Look(World(Do(s, WrapperDies(i)), files))
    ensures var u := Do(s, WrapperDies(i));
            && T.StateFor(at, t, files.command) == T.Died
            && u.dir.Some? && R.AppearsLive(u, u.dir.value) && !R.Collectable(u)
  {
    var u := Do(s, WrapperDies(i));
    assert u.dir == s.dir && RunsAs(u.runs[i], s.runs[i].command);
    assert Alive(u, s.runs[i].command);
    hide Alive, Do, Enabled;
    JudgesAgree(World(u, files), at, t);
  }
}
