/** Whole runs of the durable exec protocol: what every run keeps, what a removal that meets
    the wrong directory leads to, and the race of two passes that makes one. */
module ExecRuns {
  import opened Wrappers
  import opened ExecRecord

  function Init(clock: nat, others: set<nat>): State {
    State(clock, None, map[], 0, map[], others)
  }

  /** `steps` can be taken from `s`, and leads to `t`. */
  ghost predicate Leads(s: State, steps: seq<Step>, t: State)
    decreases |steps|
  {
    if steps == [] then t == s
    else Enabled(s, steps[0]) && Leads(Do(s, steps[0]), steps[1..], t)
  }

  /** Every state on the way has the directories it needs. */
  ghost predicate KeptAlong(s: State, steps: seq<Step>)
    decreases |steps|
  {
    Kept(s) && (steps != [] && Enabled(s, steps[0]) ==> KeptAlong(Do(s, steps[0]), steps[1..]))
  }

  /** Every removal on the way finds what its pass condemned, or nothing. */
  ghost predicate TargetedAlong(s: State, steps: seq<Step>)
    decreases |steps|
  {
    steps != [] && Enabled(s, steps[0]) ==>
      && (steps[0].Remove? ==> OnTarget(s, steps[0].pass))
      && TargetedAlong(Do(s, steps[0]), steps[1..])
  }

  /** A run whose removals find what was condemned keeps the directory of every record that is
      being made or is live, at every point. */
  lemma {:induction false} TargetedKeeps(s: State, steps: seq<Step>)
    requires Inv(s) && TargetedAlong(s, steps)
    ensures KeptAlong(s, steps)
    decreases |steps|
  {
    if steps != [] && Enabled(s, steps[0]) {
      Keeps(s, steps[0]);
      TargetedKeeps(Do(s, steps[0]), steps[1..]);
    }
  }

  lemma {:induction false} TargetedInv(s: State, steps: seq<Step>, t: State)
    requires Inv(s) && Leads(s, steps, t) && TargetedAlong(s, steps)
    ensures Inv(t)
    decreases |steps|
  {
    if steps != [] {
      Keeps(s, steps[0]);
      TargetedInv(Do(s, steps[0]), steps[1..], t);
    }
  }

  /** No pass begins while another is under way. */
  ghost predicate Serial(s: State, steps: seq<Step>)
    decreases |steps|
  {
    steps != [] && Enabled(s, steps[0]) ==>
      && (steps[0].Begin? ==> forall p | p in s.passes :: s.passes[p].Idle?)
      && Serial(Do(s, steps[0]), steps[1..])
  }

  ghost predicate OnePass(s: State) {
    && (forall p, q | p in s.passes && q in s.passes && !s.passes[p].Idle? && !s.passes[q].Idle? :: p == q)
    && (forall p | p in s.passes && s.passes[p].Condemned? :: s.dir.Some? && s.dir.value.inc == s.passes[p].inc)
  }

  lemma KeepsOnePass(s: State, step: Step)
    requires Inv(s) && OnePass(s) && Enabled(s, step)
    requires step.Begin? ==> forall p | p in s.passes :: s.passes[p].Idle?
    ensures OnePass(Do(s, step))
  {
    CondemnedUnneeded(s);
    PassesOrPath(s, step);
    hide Alive, Inv, Do, Enabled;
  }

  /** A step moves one pass and leaves the directory, or moves no pass and changes no
      directory but one that is absent or being refused. */
  lemma PassesOrPath(s: State, step: Step)
    requires Enabled(s, step)
    ensures var t := Do(s, step);
            if PassOf(step).Some? then
              && t.passes == s.passes[PassOf(step).value := t.passes[PassOf(step).value]]
              && (if step.Remove? then t.passes[step.pass].Idle? else t.dir == s.dir)
              && (step.Begin? || (PassOf(step).value in s.passes && !s.passes[PassOf(step).value].Idle?))
              && (t.passes[PassOf(step).value].Condemned? ==>
                    t.dir.Some? && t.dir.value.inc == t.passes[PassOf(step).value].inc)
            else
              && t.passes == s.passes
              && (s.dir.Some? && t.dir.None? ==> step.Refuse? && At(s, step.run, Published))
              && (s.dir.Some? && t.dir.Some? ==> t.dir.value.inc == s.dir.value.inc)
  {
    hide Alive;
  }

  function PassOf(step: Step): Option<nat> {
    if step.Begin? || step.ReadExit? || step.ReadOwner? || step.ProbeOwner? || step.ReadPid? || step.ProbePid?
       || step.ReadAge? || step.Remove?
    then Some(step.pass) else None
  }

  lemma CondemnedUnneeded(s: State)
    requires Inv(s)
    ensures forall p | p in s.passes && s.passes[p].Condemned? ::
              s.passes[p].inc in s.runs && !s.runs[s.passes[p].inc].Needed()
    ensures forall i | At(s, i, Published) :: s.dir.Some? && s.dir.value.inc == i
  {
    forall p | p in s.passes && s.passes[p].Condemned?
      ensures s.passes[p].inc in s.runs && !s.runs[s.passes[p].inc].Needed()
    {
      assert Known(s, s.passes[p]);
    }
    forall i | At(s, i, Published)
      ensures s.dir.Some? && s.dir.value.inc == i
    {
      assert s.runs[i].Needed();
    }
  }

  /** Passes that take turns find what they condemned. */
  lemma {:induction false} SerialTargets(s: State, steps: seq<Step>)
    requires Inv(s) && OnePass(s) && Serial(s, steps)
    ensures TargetedAlong(s, steps)
    decreases |steps|
  {
    if steps != [] && Enabled(s, steps[0]) {
      Keeps(s, steps[0]);
      KeepsOnePass(s, steps[0]);
      SerialTargets(Do(s, steps[0]), steps[1..]);
    }
  }

  /** Passes that take turns never harm a record. */
  lemma SerialKeeps(s: State, steps: seq<Step>)
    requires Inv(s) && OnePass(s) && Serial(s, steps)
    ensures KeptAlong(s, steps)
  {
    SerialTargets(s, steps);
    TargetedKeeps(s, steps);
  }

  // ---- What a stray removal leads to ---------------------------------------------------------------

  /** Two records of one exec are live. */
  ghost predicate Doubled(s: State) {
    exists i, j | i in s.runs && j in s.runs :: i != j && s.runs[i].Live() && s.runs[j].Live()
  }

  /** Two live records are within reach, with every later removal finding what it condemned. */
  ghost predicate Reaches(s: State) {
    exists steps, t :: Leads(s, steps, t) && TargetedAlong(s, steps) && Doubled(t)
  }

  lemma ReachesNow(s: State)
    requires Doubled(s)
    ensures Reaches(s)
  {
    assert Leads(s, [], s) && TargetedAlong(s, []);
  }

  lemma ReachesFirst(s: State, step: Step)
    requires Enabled(s, step) && !step.Remove? && Reaches(Do(s, step))
    ensures Reaches(s)
  {
    var steps, t :| Leads(Do(s, step), steps, t) && TargetedAlong(Do(s, step), steps) && Doubled(t);
    assert ([step] + steps)[1..] == steps;
    assert Leads(s, [step] + steps, t) && TargetedAlong(s, [step] + steps);
  }

  lemma FreshNumber(used: set<nat>) returns (n: nat)
    ensures n !in used
  {
    n := 0;
    var below: set<nat> := {};
    while n in used
      invariant below <= used && (forall k: nat :: k in below <==> k < n)
      decreases used - below
    {
      below := below + {n};
      n := n + 1;
    }
  }

  /** Some process number is free. */
  lemma FreshProcess(s: State) returns (process: nat)
    ensures !Alive(s, process)
  {
    var wrappers := set i | i in s.runs :: s.runs[i].wrapper;
    var commands := set i | i in s.runs :: s.runs[i].command;
    process := FreshNumber(s.others + wrappers + commands);
    forall i | i in s.runs
      ensures !RunsAs(s.runs[i], process)
    {
      assert s.runs[i].wrapper in wrappers && s.runs[i].command in commands;
    }
  }

  lemma {:induction false} ReachesAfter(s: State, steps: seq<Step>, t: State)
    requires Leads(s, steps, t) && Reaches(t) && forall i | 0 <= i < |steps| :: !steps[i].Remove?
    ensures Reaches(s)
    decreases |steps|
  {
    if steps != [] {
      hide Reaches;
      ReachesAfter(Do(s, steps[0]), steps[1..], t);
      ReachesFirst(s, steps[0]);
    }
  }

  /** With no directory at the path the next request becomes live there. */
  lemma NewLive(s: State) returns (t: State)
    requires s.dir.None? && s.nextInc !in s.runs
    ensures Reaches(t) ==> Reaches(s)
    ensures t.nextInc == s.nextInc + 1 && s.nextInc in t.runs && t.runs[s.nextInc].Live()
    ensures t.runs == s.runs[s.nextInc := t.runs[s.nextInc]]
  {
    var n := s.nextInc;
    var process := FreshProcess(s);
    var u := Spawns(s, process);
    t := Do(u, WriteOwner(n));
    hide Alive, Reaches, Leads;
    if Reaches(t) {
      ReachesFirst(u, WriteOwner(n));
      ReachesAfter(s, [Mkdir(false)] + ([Publish(n)] + [Spawn(n, process)]), u);
    }
  }

  /** With no directory at the path the next request starts, whatever else is live. */
  lemma StartReaches(s: State, i: nat)
    requires s.dir.None? && i in s.runs && s.runs[i].Live() && s.nextInc !in s.runs
    ensures Reaches(s)
  {
    var t := NewLive(s);
    assert t.runs[i].Live() && i != s.nextInc;
    ReachesNow(t);
  }

  /** A spawn whose directory is gone goes on all the same. */
  lemma SpawnedReaches(s: State, i: nat)
    requires s.dir.None? && Acts(s, i, Spawned) && s.nextInc !in s.runs
    ensures Reaches(s)
  {
    hide Alive, Reaches;
    StartReaches(Do(s, WriteOwner(i)), i);
    ReachesFirst(s, WriteOwner(i));
  }

  /** A request that is to be refused removes whichever directory it finds. */
  lemma RefusalReaches(s: State, i: nat)
    requires s.dir.None? && At(s, i, Published) && s.runs[i].replays && s.nextInc !in s.runs && s.nextInc + 1 !in s.runs
    ensures Reaches(s)
  {
    var t := NewLive(s);
    var u := Do(t, Refuse(i));
    assert u.runs[s.nextInc].Live();
    hide Alive, Reaches;
    StartReaches(u, s.nextInc);
    ReachesFirst(t, Refuse(i));
  }

  lemma PublishedReaches(s: State, i: nat)
    requires s.dir.None? && At(s, i, Published) && s.nextInc !in s.runs && s.nextInc + 1 !in s.runs
    ensures Reaches(s)
  {
    if s.runs[i].replays {
      RefusalReaches(s, i);
    } else {
      var process := FreshProcess(s);
      hide Alive, Reaches;
      SpawnedReaches(Do(s, Spawn(i, process)), i);
      ReachesFirst(s, Spawn(i, process));
    }
  }

  /** Without its directory a record that is needed leads to two live ones. */
  lemma LostReaches(s: State, i: nat)
    requires s.dir.None? && i in s.runs && s.runs[i].Needed() && s.nextInc !in s.runs && s.nextInc + 1 !in s.runs
    ensures Reaches(s)
  {
    hide Alive, Reaches;
    if s.runs[i].Live() {
      StartReaches(s, i);
    } else if s.runs[i].phase == Spawned {
      SpawnedReaches(s, i);
    } else if s.runs[i].phase == Published {
      PublishedReaches(s, i);
    } else {
      PublishedReaches(Do(s, Publish(i)), i);
      ReachesFirst(s, Publish(i));
    }
  }

  /** A state that keeps the invariant has no two live records in reach. */
  lemma InvIsSafe(s: State)
    requires Inv(s)
    ensures !Reaches(s)
  {
    forall steps, t | Leads(s, steps, t) && TargetedAlong(s, steps)
      ensures !Doubled(t)
    {
      TargetedInv(s, steps, t);
    }
  }

  /** A removal brings two live records into reach exactly when the directory it meets is
      needed, and it then is not the one that was condemned. */
  lemma RemovalDoublesIff(s: State, p: nat)
    requires Inv(s) && Enabled(s, Remove(p))
    ensures Reaches(Do(s, Remove(p))) <==> NeededAtPath(s)
    ensures NeededAtPath(s) ==> !OnTarget(s, p)
  {
    RemoveKeeps(s, p);
    if NeededAtPath(s) {
      LostReaches(Do(s, Remove(p)), s.dir.value.inc);
    } else {
      InvIsSafe(Do(s, Remove(p)));
    }
  }

  /** No point of the run has two live records in reach. */
  ghost predicate SafeAlong(s: State, steps: seq<Step>)
    decreases |steps|
  {
    !Reaches(s) && (steps != [] && Enabled(s, steps[0]) ==> SafeAlong(Do(s, steps[0]), steps[1..]))
  }

  /** No removal of the run meets a needed directory. */
  ghost predicate HarmlessAlong(s: State, steps: seq<Step>)
    decreases |steps|
  {
    steps != [] && Enabled(s, steps[0]) ==>
      && (steps[0].Remove? ==> !NeededAtPath(s))
      && HarmlessAlong(Do(s, steps[0]), steps[1..])
  }

  /** Over every run: two live records for one exec never come within reach exactly when no
      removal meets the directory of a record in the making or a live one. */
  lemma {:induction false} SafeIffHarmless(s: State, steps: seq<Step>)
    requires Inv(s)
    ensures SafeAlong(s, steps) <==> HarmlessAlong(s, steps)
    decreases |steps|
  {
    InvIsSafe(s);
    if steps != [] && Enabled(s, steps[0]) {
      Keeps(s, steps[0]);
      if steps[0].Remove? { RemovalDoublesIff(s, steps[0].pass); }
      hide Inv, Reaches, NeededAtPath, Do, Enabled;
      if !(steps[0].Remove? && NeededAtPath(s)) {
        SafeIffHarmless(Do(s, steps[0]), steps[1..]);
      } else {
        assert !SafeAlong(Do(s, steps[0]), steps[1..]);
      }
    }
  }

  /** The same from an empty journal. */
  lemma FromEmptyJournal(clock: nat, others: set<nat>, steps: seq<Step>)
    ensures SafeAlong(Init(clock, others), steps) <==> HarmlessAlong(Init(clock, others), steps)
  {
    SafeIffHarmless(Init(clock, others), steps);
  }

  lemma {:induction false} HarmlessKeeps(s: State, steps: seq<Step>)
    requires Inv(s) && HarmlessAlong(s, steps)
    ensures KeptAlong(s, steps)
    decreases |steps|
  {
    if steps != [] && Enabled(s, steps[0]) {
      Keeps(s, steps[0]);
      HarmlessKeeps(Do(s, steps[0]), steps[1..]);
    }
  }

  lemma {:induction false} HarmlessInv(s: State, steps: seq<Step>, t: State)
    requires Inv(s) && Leads(s, steps, t) && HarmlessAlong(s, steps)
    ensures Inv(t)
    decreases |steps|
  {
    if steps != [] {
      Keeps(s, steps[0]);
      HarmlessInv(Do(s, steps[0]), steps[1..], t);
    }
  }

  /** From an empty journal, over every run without a harmful removal: while a record is live
      a request finds its directory, and nothing can spawn beside it. */
  lemma SoleOverRuns(clock: nat, others: set<nat>, steps: seq<Step>, t: State, i: nat)
    requires Leads(Init(clock, others), steps, t) && i in t.runs && t.runs[i].Live()
    requires HarmlessAlong(Init(clock, others), steps)
    ensures KeptAlong(Init(clock, others), steps)
    ensures t.dir.Some? && t.dir.value.inc == i
    ensures forall replays :: !Enabled(t, Mkdir(replays))
    ensures forall j, process :: !Enabled(t, Spawn(j, process))
  {
    HarmlessKeeps(Init(clock, others), steps);
    HarmlessInv(Init(clock, others), steps, t);
    LiveIsSole(t, i);
  }

  /** Removals that find what was condemned are harmless, and so are passes that take turns. */
  lemma {:induction false} TargetedIsHarmless(s: State, steps: seq<Step>)
    requires Inv(s) && (TargetedAlong(s, steps) || (OnePass(s) && Serial(s, steps)))
    ensures HarmlessAlong(s, steps)
    decreases |steps|
  {
    if !TargetedAlong(s, steps) { SerialTargets(s, steps); }
    if steps != [] && Enabled(s, steps[0]) {
      Keeps(s, steps[0]);
      TargetedIsHarmless(Do(s, steps[0]), steps[1..]);
    }
  }

  // ---- Dead records go, and two passes can race ------------------------------------------------

  function Reading(p: nat): seq<Step> {
    [Begin(p)] + ReadingOn(p, 5)
  }

  /** The reads of a pass, counted down to the last one. */
  function ReadingStep(p: nat, n: nat): Step {
    if n == 0 then ReadAge(p)
    else if n == 1 then ProbePid(p)
    else if n == 2 then ReadPid(p)
    else if n == 3 then ProbeOwner(p)
    else if n == 4 then ReadOwner(p)
    else ReadExit(p)
  }

  function ReadingOn(p: nat, n: nat): seq<Step> {
    if n == 0 then [ReadingStep(p, 0)] else [ReadingStep(p, n)] + ReadingOn(p, n - 1)
  }

  /** What the pass has read of a dead record with `n` reads to go after the next. */
  function View(s: State, n: nat): Pass
    requires s.dir.Some?
  {
    if n == 0 then NotLive(s.clock)
    else if n == 1 then PidRead(s.clock, s.dir.value.pid)
    else if n == 2 then OwnerDead(s.clock)
    else if n == 3 then OwnerRead(s.clock, s.dir.value.owner)
    else if n == 4 then NoExit(s.clock)
    else Looking(s.clock)
  }

  /** No exit marker, nobody answers to its pid files, and its last sign of life is older
      than the time to live. */
  ghost predicate Dead(s: State) {
    && s.dir.Some? && s.dir.value.finished.None?
    && (s.dir.value.owner.Some? ==> !Alive(s, s.dir.value.owner.value))
    && (s.dir.value.pid.Some? ==> !Alive(s, s.dir.value.pid.value))
    && s.dir.value.made + TTL_MS <= s.clock
    && (s.dir.value.created.Some? ==> s.dir.value.created.value + TTL_MS <= s.clock)
    && (s.dir.value.activity.Some? ==> s.dir.value.activity.value + TTL_MS <= s.clock)
  }

  lemma {:induction false} LeadsOn(s: State, a: seq<Step>, t: State, b: seq<Step>, u: State)
    requires Leads(s, a, t) && Leads(t, b, u)
    ensures Leads(s, a + b, u)
    decreases |a|
  {
    if a == [] {
      assert a + b == b;
    } else {
      LeadsOn(Do(s, a[0]), a[1..], t, b, u);
      assert (a + b)[1..] == a[1..] + b;
    }
  }

  lemma LeadsFirst(s: State, step: Step, rest: seq<Step>, t: State)
    requires Enabled(s, step) && Leads(Do(s, step), rest, t)
    ensures Leads(s, [step] + rest, t)
  {
    assert ([step] + rest)[1..] == rest;
  }

  lemma ReRead(s: State, p: nat, a: Pass, b: Pass)
    ensures Read(Read(s, p, a), p, b) == Read(s, p, b)
    ensures forall process :: Alive(Read(s, p, a), process) <==> Alive(s, process)
  {
  }

  lemma ReadsNext(s: State, p: nat, n: nat)
    requires Dead(s) && n <= 5
    ensures var next := if n == 0 then Condemned(s.dir.value.inc) else View(s, n - 1);
            Enabled(Read(s, p, View(s, n)), ReadingStep(p, n))
            && Do(Read(s, p, View(s, n)), ReadingStep(p, n)) == Read(s, p, next)
  {
    ReRead(s, p, View(s, n), if n == 0 then Condemned(s.dir.value.inc) else View(s, n - 1));
    hide Alive;
  }

  lemma {:induction false} ReadsOn(s: State, p: nat, n: nat)
    requires Dead(s) && n <= 5
    ensures Leads(Read(s, p, View(s, n)), ReadingOn(p, n), Read(s, p, Condemned(s.dir.value.inc)))
  {
    ReadsNext(s, p, n);
    if n == 0 {
      LeadsOne(Read(s, p, View(s, 0)), ReadAge(p));
    } else {
      ReadsOn(s, p, n - 1);
      hide Leads, Dead, Do, Enabled, View, ReadingStep;
      LeadsFirst(Read(s, p, View(s, n)), ReadingStep(p, n), ReadingOn(p, n - 1),
                 Read(s, p, Condemned(s.dir.value.inc)));
    }
  }

  /** An uninterrupted pass condemns a dead record. */
  lemma CondemnsDead(s: State, p: nat)
    requires Dead(s) && (p in s.passes ==> s.passes[p].Idle?)
    ensures Leads(s, Reading(p), Read(s, p, Condemned(s.dir.value.inc)))
  {
    hide Leads;
    ReadsOn(s, p, 5);
    LeadsFirst(s, Begin(p), ReadingOn(p, 5), Read(s, p, Condemned(s.dir.value.inc)));
  }

  // ---- What a pass that is left alone does ------------------------------------------------------------

  /** A recorded process answers, or with no pid file the record is in its spawn grace. */
  ghost predicate AppearsLive(s: State, f: Files) {
    || (f.owner.Some? && Alive(s, f.owner.value))
    || (if f.pid.Some? then Alive(s, f.pid.value)
        else s.clock < (if f.created.Some? then f.created.value else f.made) + SPAWN_GRACE_MS)
  }

  /** When the record last gave a sign of life: its newest file, else its request, else its
      directory. */
  function LastSign(f: Files): nat {
    if f.activity.Some? then f.activity.value else if f.created.Some? then f.created.value else f.made
  }

  /** Finished for the whole time to live, or dead and without a sign of life for that long. */
  ghost predicate Collectable(s: State) {
    s.dir.Some? &&
      var f := s.dir.value;
      if f.finished.Some? then f.finished.value + TTL_MS <= s.clock
      else !AppearsLive(s, f) && LastSign(f) + TTL_MS <= s.clock
  }

  /** What the pass will make of the record, as far as it has read. */
  ghost predicate Dooms(s: State, pass: Pass) {
    match pass
    case Idle => false
    case Condemned(_) => s.dir.Some?
    case NotLive(_) => s.dir.Some? && LastSign(s.dir.value) + TTL_MS <= s.clock
    case PidRead(_, _) => s.dir.Some? && !PidLive(s) && LastSign(s.dir.value) + TTL_MS <= s.clock
    case OwnerDead(_) => s.dir.Some? && !PidLive(s) && LastSign(s.dir.value) + TTL_MS <= s.clock
    case _ => if pass.Looking? then Collectable(s) else Collectable(s) && s.dir.value.finished.None?
  }

  ghost predicate PidLive(s: State)
    requires s.dir.Some?
  {
    var f := s.dir.value;
    if f.pid.Some? then Alive(s, f.pid.value)
    else s.clock < (if f.created.Some? then f.created.value else f.made) + SPAWN_GRACE_MS
  }

  /** The pass began now, and what it has read is what is there. */
  ghost predicate UpToDate(s: State, pass: Pass) {
    match pass
    case Idle => true
    case Condemned(inc) => s.dir.Some? && s.dir.value.inc == inc
    case Looking(now) => now == s.clock
    case OwnerRead(now, owner) =>
      now == s.clock && Unfinished(s) && owner == if s.dir.Some? then s.dir.value.owner else None
    case PidRead(now, pid) =>
      now == s.clock && Unfinished(s) && pid == if s.dir.Some? then s.dir.value.pid else None
    case NoExit(now) => now == s.clock && Unfinished(s)
    case OwnerDead(now) => now == s.clock && Unfinished(s)
    case NotLive(now) => now == s.clock && Unfinished(s)
  }

  predicate Unfinished(s: State) { s.dir.Some? ==> s.dir.value.finished.None? }

  /** The next step of the pass; there is always just one. */
  function NextRead(p: nat, pass: Pass): Step {
    match pass
    case Idle => Begin(p)
    case Looking(_) => ReadExit(p)
    case NoExit(_) => ReadOwner(p)
    case OwnerRead(_, _) => ProbeOwner(p)
    case OwnerDead(_) => ReadPid(p)
    case PidRead(_, _) => ProbePid(p)
    case NotLive(_) => ReadAge(p)
    case Condemned(_) => Remove(p)
  }

  function ToGo(pass: Pass): nat {
    match pass
    case Looking(_) => 7
    case NoExit(_) => 6
    case OwnerRead(_, _) => 5
    case OwnerDead(_) => 4
    case PidRead(_, _) => 3
    case NotLive(_) => 2
    case Condemned(_) => 1
    case Idle => 0
  }

  /** One step of a pass that is left alone changes its own note only, the removal aside, and
      not what it will make of the record. */
  lemma PassMoves(s: State, p: nat, step: Step)
    requires p in s.passes && UpToDate(s, s.passes[p]) && !s.passes[p].Idle?
    requires Enabled(s, step) && PassOf(step) == Some(p)
    ensures var t := Do(s, step);
            && step == NextRead(p, s.passes[p])
            && p in t.passes && t == Read(s, p, t.passes[p]).(dir := if step.Remove? then None else s.dir)
            && UpToDate(t, t.passes[p]) && ToGo(t.passes[p]) < ToGo(s.passes[p])
            && (step.Remove? ==> Dooms(s, s.passes[p]) && t.passes[p].Idle?)
            && (!step.Remove? ==> Dooms(t, t.passes[p]) == Dooms(s, s.passes[p]))
  {
    var t := Do(s, step);
    ReRead(s, p, t.passes[p], t.passes[p]);
    assert forall process :: Alive(Read(s, p, t.passes[p]), process) <==> Alive(s, process);
    hide Alive;
  }

  lemma {:induction false} PassRunsOn(s: State, p: nat, steps: seq<Step>, t: State)
    requires p in s.passes && UpToDate(s, s.passes[p]) && !s.passes[p].Idle?
    requires Leads(s, steps, t) && forall k | 0 <= k < |steps| :: PassOf(steps[k]) == Some(p) && !steps[k].Begin?
    ensures p in t.passes
    ensures (t.passes[p].Idle? ==> t == Read(s, p, Idle).(dir := if Dooms(s, s.passes[p]) then None else s.dir))
    decreases |steps|
  {
    if steps != [] {
      var u := Do(s, steps[0]);
      PassMoves(s, p, steps[0]);
      ReReads(s, p);
      hide Do, Enabled, UpToDate, Dooms;
      if u.passes[p].Idle? {
        if |steps| > 1 { IdleIsOver(u, p, steps[1]); }
      } else {
        PassRunsOn(u, p, steps[1..], t);
      }
    }
  }

  lemma IdleIsOver(s: State, p: nat, step: Step)
    requires p in s.passes && s.passes[p].Idle? && PassOf(step) == Some(p) && !step.Begin?
    ensures !Enabled(s, step)
  {
  }

  lemma ReReads(s: State, p: nat)
    ensures forall a, b :: Read(Read(s, p, a), p, b) == Read(s, p, b)
  {
    forall a, b
      ensures Read(Read(s, p, a), p, b) == Read(s, p, b)
    {
      ReRead(s, p, a, b);
    }
  }

  /** It does come to its end. */
  lemma {:induction false} PassEnds(s: State, p: nat) returns (steps: seq<Step>, t: State)
    requires p in s.passes && UpToDate(s, s.passes[p])
    ensures Leads(s, steps, t) && p in t.passes && t.passes[p].Idle?
    ensures forall k | 0 <= k < |steps| :: PassOf(steps[k]) == Some(p) && !steps[k].Begin?
    decreases if p in s.passes then ToGo(s.passes[p]) else 0
  {
    if s.passes[p].Idle? {
      steps, t := [], s;
    } else {
      var step := NextRead(p, s.passes[p]);
      PassMoves(s, p, step);
      var rest;
      rest, t := PassEnds(Do(s, step), p);
      steps := [step] + rest;
      hide Do, Enabled;
      LeadsFirst(s, step, rest, t);
    }
  }

  /** A pass that is left alone ends, and takes the directory away exactly when the record has
      been finished, or dead and silent, for the whole time to live; it changes nothing else. */
  lemma PassCollectsIff(s: State, p: nat, steps: seq<Step>, t: State)
    requires p in s.passes ==> s.passes[p].Idle?
    requires Leads(Do(s, Begin(p)), steps, t) && p in t.passes && t.passes[p].Idle?
    requires forall k | 0 <= k < |steps| :: PassOf(steps[k]) == Some(p) && !steps[k].Begin?
    ensures t == Read(s, p, Idle).(dir := if Collectable(s) then None else s.dir)
  {
    var u := Do(s, Begin(p));
    assert u == Read(s, p, Looking(s.clock));
    SameCollectable(s, u);
    PassRunsOn(u, p, steps, t);
    ReReads(s, p);
    hide Leads, Collectable, Do;
  }

  lemma SameCollectable(s: State, u: State)
    requires u == s.(passes := u.passes)
    ensures Collectable(u) <==> Collectable(s)
  {
    assert forall process :: Alive(u, process) <==> Alive(s, process);
    hide Alive;
  }

  lemma PassCanEnd(s: State, p: nat) returns (steps: seq<Step>, t: State)
    requires p in s.passes ==> s.passes[p].Idle?
    ensures Leads(s, [Begin(p)] + steps, t)
    ensures t == Read(s, p, Idle).(dir := if Collectable(s) then None else s.dir)
  {
    steps, t := PassEnds(Do(s, Begin(p)), p);
    PassCollectsIff(s, p, steps, t);
    hide Leads, Collectable;
    LeadsFirst(s, Begin(p), steps, t);
  }

  // ---- How long a record stays readable -------------------------------------------------------------

  /** The step writes a file into the record of run `i`. */
  predicate Writes(step: Step, i: nat) {
    || step == Publish(i) || step == Degrade(i) || step == WriteOwner(i) || step == WritePid(i)
    || step == Output(i) || step == Finish(i)
  }

  /** The directory of run `i`, with a sign of life no older than `since`. */
  ghost predicate Signs(s: State, i: nat, since: nat) {
    s.dir.Some? && s.dir.value.inc == i && s.dir.value.activity.Some? && s.dir.value.activity.value >= since
  }

  lemma WriteSigns(s: State, step: Step, i: nat)
    requires Inv(s) && Enabled(s, step) && Writes(step, i) && s.dir.Some? && s.dir.value.inc == i
    ensures Signs(Do(s, step), i, s.clock)
  {
    hide Alive;
  }

  lemma SignsOn(s: State, step: Step, i: nat, since: nat)
    requires Inv(s) && Enabled(s, step) && Signs(s, i, since) && s.clock < since + TTL_MS && since <= s.clock
    requires step != Refuse(i) && (step.Remove? ==> OnTarget(s, step.pass))
    ensures Signs(Do(s, step), i, since) && Do(s, step).clock >= s.clock
  {
    if step.Remove? { RemovedIsAged(s, step.pass); }
    hide Alive;
  }

  lemma {:induction false} SignsAlong(s: State, steps: seq<Step>, t: State, i: nat, since: nat)
    requires Inv(s) && Leads(s, steps, t) && TargetedAlong(s, steps) && Refuse(i) !in steps
    requires Signs(s, i, since) && since <= s.clock && t.clock < since + TTL_MS
    ensures Signs(t, i, since)
    decreases |steps|
  {
    if steps != [] {
      var u := Do(s, steps[0]);
      ClockGoesOn(s, steps, t);
      Keeps(s, steps[0]);
      SignsOn(s, steps[0], i, since);
      hide Do, Enabled, Inv, Signs;
      SignsAlong(u, steps[1..], t, i, since);
    }
  }

  lemma {:induction false} ClockGoesOn(s: State, steps: seq<Step>, t: State)
    requires Leads(s, steps, t)
    ensures s.clock <= t.clock
    decreases |steps|
  {
    if steps != [] {
      ClockStep(s, steps[0]);
      hide Do, Enabled;
      ClockGoesOn(Do(s, steps[0]), steps[1..], t);
    }
  }

  lemma ClockStep(s: State, step: Step)
    requires Enabled(s, step)
    ensures s.clock <= Do(s, step).clock
  {
    hide Alive;
  }

  /** Whatever a record writes, its directory stays for the whole time to live from then on,
      over every run whose removals find what was condemned. */
  lemma StaysReadable(s: State, step: Step, i: nat, steps: seq<Step>, t: State)
    requires Inv(s) && Enabled(s, step) && Writes(step, i) && s.dir.Some? && s.dir.value.inc == i
    requires Leads(Do(s, step), steps, t) && TargetedAlong(Do(s, step), steps) && Refuse(i) !in steps
    requires t.clock < s.clock + TTL_MS
    ensures t.dir.Some? && t.dir.value.inc == i
  {
    WriteSigns(s, step, i);
    ClockStep(s, step);
    Keeps(s, step);
    hide Do, Enabled, Inv;
    SignsAlong(Do(s, step), steps, t, i, s.clock);
  }

  // ---- Every record can go ---------------------------------------------------------------------------

  /** Something of the run is still going on. */
  predicate Busy(r: Run) { r.phase == Made || r.phase == Published || r.wrapperUp || r.commandUp }

  function Load(r: Run): nat {
    (if r.phase == Made || r.phase == Published then 1 else 0) + (if r.wrapperUp then 1 else 0)
    + if r.commandUp then 1 else 0
  }

  /** A request that did not get to its spawn gives up; a wrapper or a command dies. */
  function Stop(r: Run, i: nat): Step {
    if r.phase == Made then Degrade(i)
    else if r.phase == Published then Abandon(i)
    else if r.wrapperUp then WrapperDies(i)
    else CommandDies(i)
  }

  lemma Stops(s: State, i: nat)
    requires Inv(s) && i in s.runs && Busy(s.runs[i])
    ensures var step := Stop(s.runs[i], i);
            && Enabled(s, step) && !step.Remove?
            && var t := Do(s, step);
            && t.runs == s.runs[i := t.runs[i]] && Load(t.runs[i]) < Load(s.runs[i])
            && t.others == s.others && t.passes == s.passes && (t.dir.Some? <==> s.dir.Some?)
  {
    hide Alive;
  }

  lemma {:induction false} QuietOne(s: State, i: nat) returns (steps: seq<Step>, t: State)
    requires Inv(s) && i in s.runs
    ensures Leads(s, steps, t) && Inv(t) && i in t.runs && t.runs == s.runs[i := t.runs[i]] && !Busy(t.runs[i])
    ensures t.others == s.others && t.passes == s.passes && (t.dir.Some? <==> s.dir.Some?)
    decreases Load(s.runs[i])
  {
    steps, t := [], s;
    if Busy(s.runs[i]) {
      var step := Stop(s.runs[i], i);
      Stops(s, i);
      Keeps(s, step);
      hide Do, Enabled, Inv, Stop, Busy;
      var rest;
      rest, t := QuietOne(Do(s, step), i);
      LeadsFirst(s, step, rest, t);
      steps := [step] + rest;
    }
  }

  lemma {:induction false} Quiets(s: State, busy: set<nat>) returns (steps: seq<Step>, t: State)
    requires Inv(s) && forall i | i in s.runs && Busy(s.runs[i]) :: i in busy
    ensures Leads(s, steps, t) && Inv(t) && forall i | i in t.runs :: !Busy(t.runs[i])
    ensures t.others == s.others && t.passes == s.passes && (t.dir.Some? <==> s.dir.Some?)
    decreases |busy|
  {
    hide Leads, Inv, Busy;
    if busy == {} {
      steps, t := [], s;
      assert Leads(s, [], s) by { LeadsNowhere(s); }
    } else {
      var i :| i in busy;
      var first, u := [], s;
      LeadsNowhere(s);
      if i in s.runs { first, u := QuietOne(s, i); }
      var rest;
      rest, t := Quiets(u, busy - {i});
      LeadsOn(s, first, u, rest, t);
      steps := first + rest;
    }
  }

  lemma LeadsNowhere(s: State)
    ensures Leads(s, [], s)
  {
  }

  lemma NobodyAlive(s: State, process: nat)
    requires s.others == {} && forall i | i in s.runs :: !Busy(s.runs[i])
    ensures !Alive(s, process)
  {
  }

  /** Long enough for any record to be collectable with all its processes gone. */
  function LongAfter(f: Files): nat {
    LastSign(f) + f.made + (if f.created.Some? then f.created.value else 0)
    + (if f.finished.Some? then f.finished.value else 0) + TTL_MS
  }

  lemma QuietIsCollectable(s: State)
    requires s.dir.Some? && s.clock >= LongAfter(s.dir.value)
    requires s.others == {} && forall i | i in s.runs :: !Busy(s.runs[i])
    ensures Collectable(s)
  {
    var f := s.dir.value;
    if f.owner.Some? { NobodyAlive(s, f.owner.value); }
    if f.pid.Some? { NobodyAlive(s, f.pid.value); }
    hide Alive, Busy;
  }

  /** With nothing going on any more the time can pass, and one pass takes the directory away. */
  lemma QuietIsCollected(s: State, p: nat) returns (steps: seq<Step>, t: State)
    requires s.others == {} && (forall i | i in s.runs :: !Busy(s.runs[i])) && (p in s.passes ==> s.passes[p].Idle?)
    ensures Leads(s, steps, t) && t.dir.None?
  {
    var ms := if s.dir.Some? then LongAfter(s.dir.value) else 0;
    assert Enabled(s, Tick(ms));
    var u := Do(s, Tick(ms));
    assert u == s.(clock := s.clock + ms);
    hide Do, Enabled, Leads, Collectable, Alive;
    if u.dir.Some? { QuietIsCollectable(u); }
    hide Busy, LongAfter;
    var pass;
    pass, t := PassCanEnd(u, p);
    LeadsFirst(s, Tick(ms), [Begin(p)] + pass, t);
    steps := [Tick(ms)] + ([Begin(p)] + pass);
  }

  /** From every state with its invariant, whatever the record has come to: its request can give
      up or its processes can die, and after that and the time to live one pass takes the
      directory away and the exec can be started anew. */
  lemma CanAlwaysBeCollected(s: State, p: nat) returns (steps: seq<Step>, t: State)
    requires Inv(s) && (p in s.passes ==> s.passes[p].Idle?)
    ensures Leads(s, steps, t) && t.dir.None? && Enabled(t, Mkdir(false))
  {
    var a := Do(s, Elsewhere({}));
    assert a == s.(others := {});
    Keeps(s, Elsewhere({}));
    hide Leads, Do, Inv, Busy, Alive;
    var stops, b := Quiets(a, s.runs.Keys);
    var last;
    last, t := QuietIsCollected(b, p);
    LeadsOn(a, stops, b, last, t);
    LeadsFirst(s, Elsewhere({}), stops + last, t);
    steps := [Elsewhere({})] + (stops + last);
  }

  // ---- Every record can finish -------------------------------------------------------------------------

  /** The run can still come to its exit marker: its request goes on, or its wrapper is there. */
  predicate GoesOn(r: Run) {
    || ((r.phase == Made || r.phase == Published) && !r.replays)
    || (r.wrapperUp && (r.phase == Spawned || r.phase == Owned || r.phase == Commanded || r.phase == Recorded))
  }

  function Onward(r: Run, i: nat, wrapper: nat, command: nat): Step
    requires GoesOn(r)
  {
    match r.phase
    case Made => Publish(i)
    case Published => Spawn(i, wrapper)
    case Spawned => WriteOwner(i)
    case Owned => StartCommand(i, command)
    case Commanded => WritePid(i)
    case _ => if r.commandUp then CommandDies(i) else Finish(i)
  }

  function StepsLeft(r: Run): nat {
    match r.phase
    case Made => 7
    case Published => 6
    case Spawned => 5
    case Owned => 4
    case Commanded => 3
    case Recorded => if r.commandUp then 2 else 1
    case _ => 0
  }

  /** The processes to come are nobody's yet. */
  ghost predicate Unused(s: State, r: Run, wrapper: nat, command: nat) {
    && wrapper != command
    && (r.phase == Made || r.phase == Published ==> !Alive(s, wrapper))
    && (r.phase == Made || r.phase == Published || r.phase == Spawned || r.phase == Owned ==> !Alive(s, command))
  }

  lemma MovesOnward(s: State, i: nat, wrapper: nat, command: nat)
    requires Inv(s) && i in s.runs && GoesOn(s.runs[i]) && Unused(s, s.runs[i], wrapper, command)
    ensures s.dir.Some? && s.dir.value.inc == i
    ensures var step := Onward(s.runs[i], i, wrapper, command);
            && Enabled(s, step) && !step.Remove?
            && var t := Do(s, step);
            && i in t.runs && StepsLeft(t.runs[i]) < StepsLeft(s.runs[i])
            && (if step.Finish? then t.runs[i].phase == Finished && t.dir.value.finished == Some(t.clock)
                else GoesOn(t.runs[i]) && Unused(t, t.runs[i], wrapper, command))
            && t.dir.Some? && t.dir.value.inc == i
  {
    assert s.runs[i].Needed();
    var t := Do(s, Onward(s.runs[i], i, wrapper, command));
    AliveOn(s, t, i, wrapper);
    AliveOn(s, t, i, command);
    hide Alive, Inv;
  }

  /** Somebody new answers a signal only if the one run that moved does. */
  lemma AliveOn(s: State, t: State, i: nat, process: nat)
    requires i in s.runs && i in t.runs && t.others == s.others && t.runs == s.runs[i := t.runs[i]]
    ensures Alive(t, process) ==> Alive(s, process) || RunsAs(t.runs[i], process)
  {
  }

  /** From every state with its invariant, a record whose request or wrapper is there can write
      its output and come to its exit marker, in its own directory. */
  lemma {:induction false} CanFinish(s: State, i: nat, wrapper: nat, command: nat) returns (steps: seq<Step>, t: State)
    requires Inv(s) && i in s.runs && GoesOn(s.runs[i]) && Unused(s, s.runs[i], wrapper, command)
    ensures Leads(s, steps, t) && At(t, i, Finished) && Output(i) in steps
    ensures t.dir.Some? && t.dir.value.inc == i && t.dir.value.finished == Some(t.clock)
    decreases StepsLeft(s.runs[i])
  {
    var step := Onward(s.runs[i], i, wrapper, command);
    MovesOnward(s, i, wrapper, command);
    Keeps(s, step);
    var rest;
    if step.Finish? {
      var u := Do(s, Output(i));
      OutputStays(s, i);
      t := Do(u, Finish(i));
      LeadsOne(u, Finish(i));
      LeadsFirst(s, Output(i), [Finish(i)], t);
      steps := [Output(i)] + [Finish(i)];
    } else {
      hide Inv, Do, Enabled, Leads, Unused, GoesOn, Onward;
      rest, t := CanFinish(Do(s, step), i, wrapper, command);
      LeadsFirst(s, step, rest, t);
      steps := [step] + rest;
    }
  }

  lemma OutputStays(s: State, i: nat)
    requires Enabled(s, Finish(i)) && s.dir.Some? && s.dir.value.inc == i
    ensures Enabled(s, Output(i))
    ensures var u := Do(s, Output(i));
            && Enabled(u, Finish(i))
            && var t := Do(u, Finish(i));
            At(t, i, Finished) && t.dir.Some? && t.dir.value.inc == i && t.dir.value.finished == Some(t.clock)
  {
  }

  lemma LeadsOne(s: State, step: Step)
    requires Enabled(s, step)
    ensures Leads(s, [step], Do(s, step))
  {
    assert Leads(Do(s, step), [], Do(s, step));
    assert [step][1..] == [];
  }

  /** A request that makes the directory and starts its wrapper, and that its command. */
  function Starting(i: nat, wrapper: nat, command: nat): seq<Step> {
    [Mkdir(false)] + ([Publish(i)] + ([Spawn(i, wrapper)] + Owning(i, command)))
  }

  function Owning(i: nat, command: nat): seq<Step> {
    [WriteOwner(i)] + ([StartCommand(i, command)] + [WritePid(i)])
  }

  /** A crashed request leaves a bare directory; a day later two passes condemn it, the first
      removes it, a request starts, the second pass removes that request's directory, and
      the next request starts a second command beside the first. */
  function Race(): seq<Step> {
    Tearing() + (Reading(0) + (Reading(1) + Tail()))
  }

  lemma NobodyNew(s: State, t: State, process: nat)
    requires t.others == s.others
    requires forall j | j in t.runs ::
               (j in s.runs && t.runs[j] == s.runs[j]) || (!t.runs[j].wrapperUp && !t.runs[j].commandUp)
    ensures Alive(t, process) ==> Alive(s, process)
  {
    if Alive(t, process) && process !in t.others {
      var j :| j in t.runs && RunsAs(t.runs[j], process);
      assert j in s.runs && RunsAs(s.runs[j], process);
    }
  }

  /** The record of a command that runs under its wrapper, both in their pid files. */
  function Running(born: nat, wrapper: nat, command: nat): Run {
    Run(born, false, Recorded, wrapper, true, command, true)
  }

  lemma RecordsOwner(s: State, i: nat)
    requires Acts(s, i, Spawned) && s.dir.Some?
    ensures var t := Do(s, WriteOwner(i));
            && t.runs == s.runs[i := s.runs[i].(phase := Owned)] && t.dir.Some? && t.dir.value.inc == s.dir.value.inc
            && t.passes == s.passes && t.nextInc == s.nextInc && t.others == s.others
  {
    hide Alive;
  }

  lemma StartsCommand(s: State, i: nat, command: nat)
    requires Acts(s, i, Owned) && !Alive(s, command)
    ensures Do(s, StartCommand(i, command))
            == s.(runs := s.runs[i := s.runs[i].(phase := Commanded, command := command, commandUp := true)])
  {
    hide Alive;
  }

  lemma RecordsPid(s: State, i: nat)
    requires Acts(s, i, Commanded) && s.dir.Some?
    ensures var t := Do(s, WritePid(i));
            && t.runs == s.runs[i := s.runs[i].(phase := Recorded)] && t.dir.Some? && t.dir.value.inc == s.dir.value.inc
            && t.passes == s.passes && t.nextInc == s.nextInc && t.others == s.others
  {
    hide Alive;
  }

  lemma Owns(s: State, i: nat, command: nat) returns (t: State)
    requires Acts(s, i, Spawned) && !s.runs[i].replays && !Alive(s, command) && s.dir.Some?
    ensures Leads(s, Owning(i, command), t) && t.passes == s.passes && t.nextInc == s.nextInc && t.others == s.others
    ensures t.dir.Some? && t.dir.value.inc == s.dir.value.inc
    ensures t.runs == s.runs[i := Running(s.runs[i].born, s.runs[i].wrapper, command)]
  {
    hide Alive, Do, Leads;
    assert Enabled(s, WriteOwner(i));
    RecordsOwner(s, i);
    var s1 := Do(s, WriteOwner(i));
    SameProcesses(s, s1, command);
    assert Enabled(s1, StartCommand(i, command));
    StartsCommand(s1, i, command);
    var s2 := Do(s1, StartCommand(i, command));
    assert Enabled(s2, WritePid(i));
    RecordsPid(s2, i);
    t := Do(s2, WritePid(i));
    hide Enabled;
    LeadsOne(s2, WritePid(i));
    LeadsFirst(s1, StartCommand(i, command), [WritePid(i)], t);
    LeadsFirst(s, WriteOwner(i), [StartCommand(i, command)] + [WritePid(i)], t);
  }

  lemma SameProcesses(s: State, t: State, process: nat)
    requires t.others == s.others && t.runs.Keys == s.runs.Keys
    requires forall j | j in t.runs :: RunsAs(t.runs[j], process) ==> RunsAs(s.runs[j], process)
    ensures Alive(t, process) ==> Alive(s, process)
  {
  }

  lemma Spawns(s: State, wrapper: nat) returns (t: State)
    requires s.dir.None? && !Alive(s, wrapper) && s.nextInc !in s.runs
    ensures Leads(s, [Mkdir(false)] + ([Publish(s.nextInc)] + [Spawn(s.nextInc, wrapper)]), t)
    ensures t.passes == s.passes && t.nextInc == s.nextInc + 1 && t.others == s.others
    ensures t.dir.Some? && t.dir.value.inc == s.nextInc
    ensures t.runs == s.runs[s.nextInc := Run(s.clock, false, Spawned, wrapper, true, 0, false)]
  {
    var i := s.nextInc;
    var s1 := Do(s, Mkdir(false));
    var s2 := Do(s1, Publish(i));
    NobodyNew(s, s2, wrapper);
    t := Do(s2, Spawn(i, wrapper));
    hide Alive, Leads, Do, Enabled;
    LeadsOne(s2, Spawn(i, wrapper));
    LeadsFirst(s1, Publish(i), [Spawn(i, wrapper)], t);
    LeadsFirst(s, Mkdir(false), [Publish(i)] + [Spawn(i, wrapper)], t);
  }

  lemma Starts(s: State, wrapper: nat, command: nat) returns (t: State)
    requires s.dir.None? && !Alive(s, wrapper) && !Alive(s, command) && wrapper != command && s.nextInc !in s.runs
    ensures Leads(s, Starting(s.nextInc, wrapper, command), t)
    ensures t.passes == s.passes && t.nextInc == s.nextInc + 1 && t.others == s.others
    ensures t.dir.Some? && t.dir.value.inc == s.nextInc
    ensures t.runs == s.runs[s.nextInc := Running(s.clock, wrapper, command)]
  {
    var i := s.nextInc;
    var u := Spawns(s, wrapper);
    OneMoreProcess(s, u, i, command);
    t := Owns(u, i, command);
    hide Alive, Leads, Owning;
    var first := [Mkdir(false)] + ([Publish(i)] + [Spawn(i, wrapper)]);
    LeadsOn(s, first, u, Owning(i, command), t);
    assert first + Owning(i, command) == Starting(i, wrapper, command);
  }

  /** Nobody but the new run's own processes is alive that was not before. */
  lemma OneMoreProcess(s: State, t: State, i: nat, process: nat)
    requires t.others == s.others && i in t.runs && t.runs == s.runs[i := t.runs[i]]
    ensures Alive(t, process) ==> Alive(s, process) || RunsAs(t.runs[i], process)
  {
    if Alive(t, process) && process !in t.others {
      var j :| j in t.runs && RunsAs(t.runs[j], process);
      assert j != i ==> j in s.runs && RunsAs(s.runs[j], process);
    }
  }

  lemma Removes(s: State, p: nat)
    requires p in s.passes && s.passes[p].Condemned?
    ensures Leads(s, [Remove(p)], Read(s, p, Idle).(dir := None))
  {
    LeadsOne(s, Remove(p));
  }

  /** An uninterrupted pass collects a dead record. */
  lemma CollectsDead(s: State, p: nat)
    requires Dead(s) && (p in s.passes ==> s.passes[p].Idle?)
    ensures Leads(s, Reading(p) + [Remove(p)], Read(s, p, Idle).(dir := None))
  {
    var t := Read(s, p, Condemned(s.dir.value.inc));
    CondemnsDead(s, p);
    Removes(t, p);
    ReRead(s, p, Condemned(s.dir.value.inc), Idle);
    LeadsOn(s, Reading(p), t, [Remove(p)], Read(s, p, Idle).(dir := None));
  }

  /** A request crashes right after its mkdir, and a day goes by. */
  function Tearing(): seq<Step> {
    [Mkdir(false)] + ([Abandon(0)] + [Tick(TTL_MS)])
  }

  /** The directory of a request that got no further than its mkdir, a day later. */
  function TornState(): State {
    State(TTL_MS, Some(Files(0, 0, None, None, None, None, None)),
          map[0 := Run(0, false, Stopped, 0, false, 0, false)], 1,
          map[], {})
  }

  lemma Torn()
    ensures Leads(Init(0, {}), Tearing(), TornState()) && Dead(TornState())
  {
    var s := Init(0, {});
    var s1 := Do(s, Mkdir(false));
    var s2 := TornState().(clock := 0);
    AbandonedIs(s1, s2);
    assert Enabled(s2, Tick(TTL_MS)) && Do(s2, Tick(TTL_MS)) == TornState();
    hide Leads, Alive, Enabled, Do;
    LeadsOne(s2, Tick(TTL_MS));
    LeadsFirst(s1, Abandon(0), [Tick(TTL_MS)], TornState());
    LeadsFirst(s, Mkdir(false), [Abandon(0)] + [Tick(TTL_MS)], TornState());
  }

  lemma AbandonedIs(s: State, t: State)
    requires s == MakeDir(Init(0, {}), false) && t == TornState().(clock := 0)
    ensures Enabled(s, Abandon(0)) && Do(s, Abandon(0)) == t
  {
  }

  function Tail(): seq<Step> {
    ([Remove(1)] + Starting(1, 7, 8)) + ([Remove(0)] + Starting(2, 9, 10))
  }

  /** A condemned path is removed, and the next request starts on it. */
  lemma RemovesAndStarts(c: State, p: nat, wrapper: nat, command: nat) returns (t: State)
    requires p in c.passes && c.passes[p].Condemned? && c.nextInc !in c.runs
    requires !Alive(c, wrapper) && !Alive(c, command) && wrapper != command
    ensures Leads(c, [Remove(p)] + Starting(c.nextInc, wrapper, command), t)
    ensures t.passes == c.passes[p := Idle] && t.nextInc == c.nextInc + 1
    ensures t.dir.Some? && t.dir.value.inc == c.nextInc
    ensures t.runs == c.runs[c.nextInc := Running(c.clock, wrapper, command)]
    ensures forall q :: Alive(t, q) ==> q == wrapper || q == command || Alive(c, q)
  {
    var d := Read(c, p, Idle).(dir := None);
    NobodyNew(c, d, wrapper);
    NobodyNew(c, d, command);
    Removes(c, p);
    t := Starts(d, wrapper, command);
    forall q
      ensures Alive(t, q) ==> q == wrapper || q == command || Alive(c, q)
    {
      OneMoreProcess(c, t, c.nextInc, q);
    }
    hide Leads, Starting, Alive;
    LeadsOn(c, [Remove(p)], d, Starting(c.nextInc, wrapper, command), t);
  }

  /** Two passes that condemned one directory remove two. */
  lemma RemovesTwice(c: State) returns (t: State)
    requires 0 in c.passes && 1 in c.passes && c.passes[0].Condemned? && c.passes[1].Condemned?
    requires c.nextInc == 1 && c.runs.Keys == {0} && forall q :: !Alive(c, q)
    ensures Leads(c, Tail(), t) && 1 in t.runs && 2 in t.runs && t.dir.Some? && t.dir.value.inc == 2
    ensures t.runs[1].Live() && t.runs[1].commandUp && t.runs[2].Live() && t.runs[2].commandUp
  {
    hide Leads, Starting, Alive;
    var e := RemovesAndStarts(c, 1, 7, 8);
    t := RemovesAndStarts(e, 0, 9, 10);
    LeadsOn(c, [Remove(1)] + Starting(1, 7, 8), e, [Remove(0)] + Starting(2, 9, 10), t);
  }

  /** The race is a run of the protocol, and ends with two live commands for one record. */
  lemma RaceSpawnsTwice() returns (t: State)
    ensures Leads(Init(0, {}), Race(), t)
    ensures 1 in t.runs && 2 in t.runs && !Kept(t)
    ensures t.runs[1].Live() && t.runs[1].commandUp && t.runs[2].Live() && t.runs[2].commandUp
  {
    var a := TornState();
    Torn();
    CondemnsDead(a, 0);
    var b := Read(a, 0, Condemned(0));
    ReRead(a, 0, Condemned(0), Idle);
    CondemnsDead(b, 1);
    var c := Read(b, 1, Condemned(0));
    t := RemovesTwice(c);
    hide Leads, Alive, Enabled, Do, Reading, Starting, Tail, Dead;
    LeadsOn(b, Reading(1), c, Tail(), t);
    LeadsOn(a, Reading(0), b, Reading(1) + Tail(), t);
    LeadsOn(Init(0, {}), Tearing(), a, Reading(0) + (Reading(1) + Tail()), t);
  }
}
