/** One durable exec record: the directory that is the spawn marker, the requests that make
    it, the wrapper that owns the command, unclean deaths and collection passes, all
    interleaved. Every file access goes by path, so it meets whichever directory is there.

    Within a run the clock does not go back, the files that are written can be read, and no
    spawn takes the whole time to live between its mkdir and its pid file. */
module ExecRecord {
  import opened Wrappers

  const TTL_MS: nat := 24 * 60 * 60 * 1000
  const SPAWN_GRACE_MS: nat := 5000

  /** The record directory. `inc` tells one directory at the path from the next. */
  datatype Files = Files(inc: nat, made: nat, created: Option<nat>, owner: Option<nat>, pid: Option<nat>,
                         finished: Option<nat>, activity: Option<nat>)

  datatype Phase = Made | Published | Spawned | Owned | Commanded | Recorded | Finished | Stopped

  /** The request that made directory `inc`, and the wrapper and command it started. */
  datatype Run = Run(born: nat, replays: bool, phase: Phase, wrapper: nat, wrapperUp: bool, command: nat,
                     commandUp: bool)
  {
    predicate OwnerRecorded() { phase == Owned || phase == Commanded || phase == Recorded || phase == Finished }

    predicate PidRecorded() { phase == Recorded || phase == Finished }

    /** Between mkdir and the pid file, with the process that is to write it still there. */
    predicate Spawning() {
      || phase == Made || phase == Published
      || ((phase == Spawned || phase == Owned || phase == Commanded) && wrapperUp)
    }

    /** No exit marker, and a recorded wrapper or command is still running. */
    predicate Live() {
      phase != Finished && ((OwnerRecorded() && wrapperUp) || (PidRecorded() && commandUp))
    }

    predicate Needed() { Spawning() || Live() }

    predicate Valid() {
      && (wrapperUp ==> phase != Made && phase != Published && phase != Stopped)
      && (commandUp ==> phase == Commanded || phase == Recorded || phase == Finished)
    }
  }

  /** How far a collection pass has read. */
  datatype Pass =
    | Idle
    | Looking(now: nat)
    | NoExit(now: nat)
    | OwnerRead(now: nat, owner: Option<nat>)
    | OwnerDead(now: nat)
    | PidRead(now: nat, pid: Option<nat>)
    | NotLive(now: nat)
    | Condemned(inc: nat)

  datatype State = State(clock: nat, dir: Option<Files>, runs: map<nat, Run>, nextInc: nat, passes: map<nat, Pass>,
                         others: set<nat>)

  datatype Step =
    // A request, by the directory it made.
    | Mkdir(replays: bool)
    | Publish(run: nat)
    | Degrade(run: nat)
    | Abandon(run: nat)
    | Refuse(run: nat)
    | Spawn(run: nat, process: nat)
    // Its wrapper and command.
    | WriteOwner(run: nat)
    | StartCommand(run: nat, process: nat)
    | WritePid(run: nat)
    | Output(run: nat)
    | CommandDies(run: nat)
    | Finish(run: nat)
    | WrapperDies(run: nat)
    // A collection pass.
    | Begin(pass: nat)
    | ReadExit(pass: nat)
    | ReadOwner(pass: nat)
    | ProbeOwner(pass: nat)
    | ReadPid(pass: nat)
    | ProbePid(pass: nat)
    | ReadAge(pass: nat)
    | Remove(pass: nat)
    // The rest of the machine.
    | Tick(ms: nat)
    | Elsewhere(others: set<nat>)

  /** A signal to `process` finds somebody: the run's own process, or one the number was
      given to since. */
  ghost predicate Alive(s: State, process: nat) {
    process in s.others || exists i | i in s.runs :: RunsAs(s.runs[i], process)
  }

  predicate RunsAs(r: Run, process: nat) {
    (r.wrapperUp && r.wrapper == process) || (r.commandUp && r.command == process)
  }

  predicate At(s: State, run: nat, phase: Phase) {
    run in s.runs && s.runs[run].phase == phase
  }

  predicate Acts(s: State, run: nat, phase: Phase) {
    At(s, run, phase) && s.runs[run].wrapperUp
  }

  predicate Reads(s: State, pass: nat) {
    pass in s.passes
  }

  ghost predicate Enabled(s: State, step: Step) {
    match step
    case Mkdir(_) => s.dir.None?
    case Publish(i) => At(s, i, Made)
    case Degrade(i) => At(s, i, Made)
    case Abandon(i) => At(s, i, Made) || At(s, i, Published)
    case Refuse(i) => At(s, i, Published) && s.runs[i].replays
    case Spawn(i, process) => At(s, i, Published) && !s.runs[i].replays && !Alive(s, process)
    case WriteOwner(i) => Acts(s, i, Spawned)
    case StartCommand(i, process) => Acts(s, i, Owned) && !Alive(s, process)
    case WritePid(i) => Acts(s, i, Commanded)
    case Output(i) => Acts(s, i, Recorded)
    case CommandDies(i) => i in s.runs && s.runs[i].commandUp
    case Finish(i) => Acts(s, i, Recorded) && !s.runs[i].commandUp
    case WrapperDies(i) => i in s.runs && s.runs[i].wrapperUp
    case Begin(p) => p in s.passes ==> s.passes[p].Idle?
    case ReadExit(p) => Reads(s, p) && s.passes[p].Looking?
    case ReadOwner(p) => Reads(s, p) && s.passes[p].NoExit?
    case ProbeOwner(p) => Reads(s, p) && s.passes[p].OwnerRead?
    case ReadPid(p) => Reads(s, p) && s.passes[p].OwnerDead?
    case ProbePid(p) => Reads(s, p) && s.passes[p].PidRead?
    case ReadAge(p) => Reads(s, p) && s.passes[p].NotLive?
    case Remove(p) => Reads(s, p) && s.passes[p].Condemned?
    case Tick(ms) => forall i | i in s.runs && s.runs[i].Spawning() :: s.clock + ms < s.runs[i].born + TTL_MS
    case Elsewhere(_) => true
  }

  // ---- What each step does ------------------------------------------------------------------

  function MakeDir(s: State, replays: bool): State {
    s.(dir := Some(Files(s.nextInc, s.clock, None, None, None, None, None)),
       runs := s.runs[s.nextInc := Run(s.clock, replays, Made, 0, false, 0, false)],
       nextInc := s.nextInc + 1)
  }

  /** A file lands in whichever directory is at the path, or nowhere. */
  function Put(s: State, f: Files): State
    requires s.dir.Some?
  {
    s.(dir := Some(f.(activity := Some(s.clock))))
  }

  function Set(s: State, i: nat, r: Run): State {
    s.(runs := s.runs[i := r])
  }

  function Read(s: State, p: nat, pass: Pass): State {
    s.(passes := s.passes[p := pass])
  }

  /** exit.json decides by its own time; without one the pass goes on to the processes. */
  function AfterExit(s: State, now: nat): Pass {
    if s.dir.None? || s.dir.value.finished.None? then NoExit(now)
    else if now >= s.dir.value.finished.value + TTL_MS then Condemned(s.dir.value.inc)
    else Idle
  }

  /** With no pid file either, a record is live for the spawn grace only. */
  function AfterNoPid(s: State, now: nat): Pass {
    if s.dir.None? then NotLive(now)
    else
      var since := if s.dir.value.created.Some? then s.dir.value.created.value else s.dir.value.made;
      if s.clock < since + SPAWN_GRACE_MS then Idle else NotLive(now)
  }

  /** A dead record ages from its newest file, else its request, else the directory. */
  function AfterAge(s: State, now: nat): Pass {
    if s.dir.None? then Idle
    else
      var f := s.dir.value;
      var expired := if f.activity.Some? then now >= f.activity.value + TTL_MS
                     else if f.created.Some? then now >= f.created.value + TTL_MS
                     else s.clock >= f.made + TTL_MS;
      if expired then Condemned(f.inc) else Idle
  }

  function RunStep(s: State, i: nat, step: Step): State
    requires i in s.runs
  {
    var r := s.runs[i];
    match step
    case Publish(_) =>
      var t := Set(s, i, r.(phase := Published));
      if s.dir.None? then t else Put(t, s.dir.value.(created := Some(s.clock)))
    case Degrade(_) =>
      var t := Set(s, i, r.(phase := Stopped));
      if s.dir.None? then t else Put(t, s.dir.value)
    case Abandon(_) => Set(s, i, r.(phase := Stopped))
    case Refuse(_) => Set(s, i, r.(phase := Stopped)).(dir := None)
    case Spawn(_, process) => Set(s, i, r.(phase := Spawned, wrapper := process, wrapperUp := true))
    case WriteOwner(_) =>
      var t := Set(s, i, r.(phase := Owned));
      if s.dir.None? then t else Put(t, s.dir.value.(owner := Some(r.wrapper)))
    case StartCommand(_, process) => Set(s, i, r.(phase := Commanded, command := process, commandUp := true))
    case WritePid(_) =>
      var t := Set(s, i, r.(phase := Recorded));
      if s.dir.None? then t else Put(t, s.dir.value.(pid := Some(r.command)))
    case Output(_) => if s.dir.None? then s else Put(s, s.dir.value)
    case CommandDies(_) => Set(s, i, r.(commandUp := false))
    case Finish(_) =>
      var t := Set(s, i, r.(phase := Finished));
      if s.dir.None? then t else Put(t, s.dir.value.(finished := Some(s.clock)))
    case WrapperDies(_) => Set(s, i, r.(wrapperUp := false))
    case _ => s
  }

  ghost function PassStep(s: State, p: nat, step: Step): State
    requires p in s.passes
  {
    var pass := s.passes[p];
    match step
    case ReadExit(_) => if pass.Looking? then Read(s, p, AfterExit(s, pass.now)) else s
    case ReadOwner(_) =>
      if pass.NoExit? then Read(s, p, OwnerRead(pass.now, if s.dir.Some? then s.dir.value.owner else None)) else s
    case ProbeOwner(_) =>
      if !pass.OwnerRead? then s
      else if pass.owner.Some? && Alive(s, pass.owner.value) then Read(s, p, Idle)
      else Read(s, p, OwnerDead(pass.now))
    case ReadPid(_) =>
      if pass.OwnerDead? then Read(s, p, PidRead(pass.now, if s.dir.Some? then s.dir.value.pid else None)) else s
    case ProbePid(_) =>
      if !pass.PidRead? then s
      else if pass.pid.None? then Read(s, p, AfterNoPid(s, pass.now))
      else if Alive(s, pass.pid.value) then Read(s, p, Idle)
      else Read(s, p, NotLive(pass.now))
    case ReadAge(_) => if pass.NotLive? then Read(s, p, AfterAge(s, pass.now)) else s
    case Remove(_) => Read(s, p, Idle).(dir := None)
    case _ => s
  }

  ghost function Do(s: State, step: Step): State
    requires Enabled(s, step)
  {
    match step
    case Mkdir(replays) => MakeDir(s, replays)
    case Begin(p) => Read(s, p, Looking(s.clock))
    case Tick(ms) => s.(clock := s.clock + ms)
    case Elsewhere(others) => s.(others := others)
    case Publish(i) => RunStep(s, i, step)
    case Degrade(i) => RunStep(s, i, step)
    case Abandon(i) => RunStep(s, i, step)
    case Refuse(i) => RunStep(s, i, step)
    case Spawn(i, _) => RunStep(s, i, step)
    case WriteOwner(i) => RunStep(s, i, step)
    case StartCommand(i, _) => RunStep(s, i, step)
    case WritePid(i) => RunStep(s, i, step)
    case Output(i) => RunStep(s, i, step)
    case CommandDies(i) => RunStep(s, i, step)
    case Finish(i) => RunStep(s, i, step)
    case WrapperDies(i) => RunStep(s, i, step)
    case ReadExit(p) => PassStep(s, p, step)
    case ReadOwner(p) => PassStep(s, p, step)
    case ProbeOwner(p) => PassStep(s, p, step)
    case ReadPid(p) => PassStep(s, p, step)
    case ProbePid(p) => PassStep(s, p, step)
    case ReadAge(p) => PassStep(s, p, step)
    case Remove(p) => PassStep(s, p, step)
  }

  // ---- Invariant -----------------------------------------------------------------------------

  /** A record that is being made or is live has its directory. */
  ghost predicate Kept(s: State) {
    forall i | i in s.runs && s.runs[i].Needed() :: s.dir.Some? && s.dir.value.inc == i
  }

  /** The directory holds what its own run wrote, and nothing else. */
  ghost predicate Own(s: State) {
    s.dir.Some? ==>
      var f := s.dir.value;
      && f.inc in s.runs && f.made <= s.clock
      && var r := s.runs[f.inc];
      && f.made == r.born
      && f.owner == (if r.OwnerRecorded() then Some(r.wrapper) else None)
      && f.pid == (if r.PidRecorded() then Some(r.command) else None)
      && (f.finished.Some? <==> r.phase == Finished)
      && (f.activity.None? ==> f.owner.None? && f.pid.None? && f.created.None?)
      && (f.activity.Some? ==> f.activity.value >= f.made)
      && (f.created.Some? ==> f.created.value >= f.made)
      && (f.finished.Some? ==> f.activity == f.finished)
  }

  ghost predicate OldDir(s: State, now: nat) {
    s.dir.Some? && s.dir.value.made + TTL_MS <= now
  }

  /** What a pass has learned stays true of a directory that was old when it began. */
  ghost predicate Known(s: State, pass: Pass)
    requires Own(s)
  {
    match pass
    case Idle => true
    case Looking(now) => now <= s.clock
    case NoExit(now) => now <= s.clock
    case OwnerRead(now, owner) => now <= s.clock && (OldDir(s, now) ==> s.dir.value.owner == owner)
    case OwnerDead(now) => now <= s.clock && (OldDir(s, now) ==> OwnerGone(s.runs[s.dir.value.inc]))
    case PidRead(now, pid) =>
      now <= s.clock && (OldDir(s, now) ==> OwnerGone(s.runs[s.dir.value.inc]) && s.dir.value.pid == pid)
    case NotLive(now) => now <= s.clock && (OldDir(s, now) ==> !s.runs[s.dir.value.inc].Live())
    case Condemned(i) =>
      i in s.runs && !s.runs[i].Needed() && (s.dir.Some? && s.dir.value.inc == i ==> Aged(s.dir.value, s.clock))
  }

  /** No sign of life for the time to live. */
  predicate Aged(f: Files, clock: nat) {
    f.made + TTL_MS <= clock && (f.activity.Some? ==> f.activity.value + TTL_MS <= clock)
  }

  predicate OwnerGone(r: Run) { !(r.OwnerRecorded() && r.wrapperUp) }

  ghost predicate Sane(s: State) {
    && (forall i | i in s.runs :: i < s.nextInc && s.runs[i].Valid())
    && (forall i | i in s.runs && s.runs[i].Spawning() :: s.clock < s.runs[i].born + TTL_MS)
  }

  ghost predicate Inv(s: State) {
    Sane(s) && Own(s) && Kept(s) && forall p | p in s.passes :: Known(s, s.passes[p])
  }

  /** The directory at the path belongs to a record in the making or a live one. */
  ghost predicate NeededAtPath(s: State) {
    s.dir.Some? && s.dir.value.inc in s.runs && s.runs[s.dir.value.inc].Needed()
  }

  /** The removal finds the directory its pass condemned, or none. */
  predicate OnTarget(s: State, p: nat)
    requires p in s.passes && s.passes[p].Condemned?
  {
    s.dir.None? || s.dir.value.inc == s.passes[p].inc
  }

  lemma PublishKeeps(s: State, step: Step)
    requires Inv(s) && Enabled(s, step) && (step.Publish? || step.Degrade? || step.Abandon?)
    ensures Inv(Do(s, step))
  {
    hide Alive;
  }

  lemma SpawnKeeps(s: State, step: Step)
    requires Inv(s) && Enabled(s, step) && (step.Refuse? || step.Spawn?)
    ensures Inv(Do(s, step))
  {
    hide Alive;
  }

  lemma PidFilesKeep(s: State, step: Step)
    requires Inv(s) && Enabled(s, step) && (step.WriteOwner? || step.WritePid?)
    ensures Inv(Do(s, step))
  {
    hide Alive;
  }

  lemma CommandKeeps(s: State, step: Step)
    requires Inv(s) && Enabled(s, step) && (step.StartCommand? || step.Output?)
    ensures Inv(Do(s, step))
  {
    hide Alive;
  }

  lemma CommandDeathKeeps(s: State, i: nat)
    requires Inv(s) && Enabled(s, CommandDies(i))
    ensures Inv(Do(s, CommandDies(i)))
  {
    hide Alive;
  }

  lemma WrapperDeathKeeps(s: State, i: nat)
    requires Inv(s) && Enabled(s, WrapperDies(i))
    ensures Inv(Do(s, WrapperDies(i)))
  {
    hide Alive;
  }

  lemma FinishKeeps(s: State, i: nat)
    requires Inv(s) && Enabled(s, Finish(i))
    ensures Inv(Do(s, Finish(i)))
  {
    hide Alive;
  }

  /** A pass that has learned something true leaves everything else as it is. */
  lemma LearnsKeeps(s: State, p: nat, pass: Pass)
    requires Inv(s) && Known(s, pass)
    ensures Inv(Read(s, p, pass))
  {
    var t := Read(s, p, pass);
    assert Own(t) && Sane(t) && Kept(t);
    forall q | q in t.passes
      ensures Known(t, t.passes[q])
    {
      KnownOf(s, t, t.passes[q]);
    }
  }

  lemma KnownOf(s: State, t: State, pass: Pass)
    requires Own(s) && Own(t) && t == s.(passes := t.passes) && Known(s, pass)
    ensures Known(t, pass)
  {
  }

  lemma ReadKeeps(s: State, step: Step)
    requires Inv(s) && Enabled(s, step)
    requires step.Begin? || step.ReadOwner? || step.ReadPid? || step.ReadExit? || step.ReadAge?
    ensures Inv(Do(s, step))
  {
    var pass := Do(s, step).passes[step.pass];
    assert Known(s, pass);
    hide Inv;
    LearnsKeeps(s, step.pass, pass);
  }

  lemma UpIsAlive(s: State)
    ensures forall i | i in s.runs :: s.runs[i].wrapperUp ==> Alive(s, s.runs[i].wrapper)
    ensures forall i | i in s.runs :: s.runs[i].commandUp ==> Alive(s, s.runs[i].command)
  {
    forall i | i in s.runs
      ensures s.runs[i].wrapperUp ==> Alive(s, s.runs[i].wrapper)
      ensures s.runs[i].commandUp ==> Alive(s, s.runs[i].command)
    {
      assert s.runs[i].wrapperUp ==> RunsAs(s.runs[i], s.runs[i].wrapper);
      assert s.runs[i].commandUp ==> RunsAs(s.runs[i], s.runs[i].command);
    }
  }

  lemma OwnerProbeKeeps(s: State, p: nat)
    requires Inv(s) && Enabled(s, ProbeOwner(p))
    ensures Inv(Do(s, ProbeOwner(p)))
  {
    UpIsAlive(s);
    hide Alive;
    var pass := Do(s, ProbeOwner(p)).passes[p];
    assert Known(s, pass);
    hide Inv, Known;
    LearnsKeeps(s, p, pass);
  }

  lemma PidProbeKeeps(s: State, p: nat)
    requires Inv(s) && Enabled(s, ProbePid(p))
    ensures Inv(Do(s, ProbePid(p)))
  {
    UpIsAlive(s);
    hide Alive;
    var pass := Do(s, ProbePid(p)).passes[p];
    assert Known(s, pass);
    hide Inv, Known;
    LearnsKeeps(s, p, pass);
  }

  lemma MkdirKeeps(s: State, replays: bool)
    requires Inv(s) && Enabled(s, Mkdir(replays))
    ensures Inv(Do(s, Mkdir(replays)))
  {
    hide Alive;
  }

  lemma ElsewhereKeeps(s: State, step: Step)
    requires Inv(s) && Enabled(s, step) && (step.Tick? || step.Elsewhere?)
    ensures Inv(Do(s, step))
  {
    hide Alive;
  }

  lemma RemoveKeeps(s: State, p: nat)
    requires Inv(s) && Enabled(s, Remove(p))
    ensures OnTarget(s, p) ==> !NeededAtPath(s)
    ensures !NeededAtPath(s) ==> Inv(Do(s, Remove(p)))
  {
    assert Known(s, s.passes[p]);
    hide Alive;
  }

  /** Every step keeps the invariant, but for a removal that meets a needed directory; one
      that finds what its pass condemned never does. */
  lemma Keeps(s: State, step: Step)
    requires Inv(s) && Enabled(s, step)
    ensures step.Remove? && OnTarget(s, step.pass) ==> !NeededAtPath(s)
    ensures !step.Remove? || !NeededAtPath(s) ==> Inv(Do(s, step))
  {
    hide Alive, Inv, NeededAtPath, RunStep, PassStep;
    match step
    case Mkdir(replays) => MkdirKeeps(s, replays);
    case Tick(_) => ElsewhereKeeps(s, step);
    case Elsewhere(_) => ElsewhereKeeps(s, step);
    case Remove(p) => RemoveKeeps(s, p);
    case Begin(_) => ReadKeeps(s, step);
    case ReadExit(_) => ReadKeeps(s, step);
    case ReadOwner(_) => ReadKeeps(s, step);
    case ReadPid(_) => ReadKeeps(s, step);
    case ReadAge(_) => ReadKeeps(s, step);
    case ProbeOwner(p) => OwnerProbeKeeps(s, p);
    case ProbePid(p) => PidProbeKeeps(s, p);
    case WriteOwner(_) => PidFilesKeep(s, step);
    case StartCommand(_, _) => CommandKeeps(s, step);
    case WritePid(_) => PidFilesKeep(s, step);
    case Output(_) => CommandKeeps(s, step);
    case CommandDies(i) => CommandDeathKeeps(s, i);
    case Finish(i) => FinishKeeps(s, i);
    case WrapperDies(i) => WrapperDeathKeeps(s, i);
    case Publish(_) => PublishKeeps(s, step);
    case Degrade(_) => PublishKeeps(s, step);
    case Abandon(_) => PublishKeeps(s, step);
    case Refuse(_) => SpawnKeeps(s, step);
    case Spawn(_, _) => SpawnKeeps(s, step);
  }

  /** While a record is live it is the only one needed, a request finds its directory and
      attaches, and nothing can spawn. */
  lemma LiveIsSole(s: State, i: nat)
    requires Kept(s) && i in s.runs && s.runs[i].Live()
    ensures forall replays :: !Enabled(s, Mkdir(replays))
    ensures forall j, process :: !Enabled(s, Spawn(j, process))
    ensures forall j | j in s.runs && s.runs[j].Needed() :: j == i
  {
    forall j, process
      ensures !Enabled(s, Spawn(j, process))
    {
      assert At(s, j, Published) ==> s.runs[j].Needed();
    }
  }

  /** A finished or dead record stays readable for the whole time to live: the directory a
      pass condemned has shown no sign of life for that long when it is removed. */
  lemma RemovedIsAged(s: State, p: nat)
    requires Inv(s) && Enabled(s, Remove(p)) && s.dir.Some? && s.dir.value.inc == s.passes[p].inc
    ensures Aged(s.dir.value, s.clock) && !s.runs[s.dir.value.inc].Needed()
  {
    assert Known(s, s.passes[p]);
  }
}
