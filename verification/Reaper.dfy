/** The zombie reaper beside the owners of tracked children. One lock spans a tracked spawn
    with its registration, and a whole scan with its waits; owners wait without it. */
module Reaper {

  /** A child of this process. `born` tells one holder of a pid from the next. */
  datatype Process = Process(born: nat, zombie: bool)

  /** An owner's handle on the child born as its key: `live` until the owner consumes the
      status or gives the child up, `tracked` until it is taken off the registry. */
  datatype Handle = Handle(pid: nat, live: bool, tracked: bool)

  datatype Seen = Seen(pid: nat, born: nat)

  datatype Lock =
    | Free
    | Spawning
    | Forked(pid: nat)
    | Listing(seen: seq<Seen>)
    | Reaping(todo: seq<Seen>, done: seq<Seen>)

  datatype State = State(registry: set<nat>, processes: map<nat, Process>, handles: map<nat, Handle>, nextBorn: nat,
                         lock: Lock, stolen: set<nat>)

  datatype Step =
    // A tracked spawn.
    | LockToSpawn
    | Fork(pid: nat)
    | SpawnFails
    | Insert
    // Its owner.
    | Wait(born: nat)
    | Retrack(born: nat)
    | Untrack(born: nat)
    // The kernel and the runtime.
    | Adopt(pid: nat, zombie: bool)
    | Exit(pid: nat)
    | RuntimeReaps(pid: nat)
    // A scan.
    | LockToScan
    | Observe(pid: nat)
    | EndList
    | Collect
    | EndScan

  predicate Enabled(s: State, step: Step) {
    match step
    case LockToSpawn => s.lock.Free?
    case Fork(pid) => s.lock.Spawning? && pid !in s.processes
    case SpawnFails => s.lock.Spawning?
    case Insert => s.lock.Forked?
    case Wait(b) =>
      && b in s.handles && s.handles[b].live
      && s.handles[b].pid in s.processes && s.processes[s.handles[b].pid] == Process(b, true)
    case Retrack(b) => s.lock.Free? && b in s.handles && s.handles[b].live && s.handles[b].tracked
    case Untrack(b) => s.lock.Free? && b in s.handles && s.handles[b].tracked
    case Adopt(pid, _) => pid !in s.processes
    case Exit(pid) => pid in s.processes
    case RuntimeReaps(pid) =>
      && pid in s.processes && s.processes[pid].zombie
      && s.processes[pid].born in s.handles && !s.handles[s.processes[pid].born].live
    case LockToScan => s.lock.Free?
    case Observe(pid) => s.lock.Listing? && pid in s.processes && s.processes[pid].zombie
    case EndList => s.lock.Listing?
    case Collect => s.lock.Reaping? && s.lock.todo != []
    case EndScan => s.lock.Reaping? && s.lock.todo == []
  }

  /** The zombie's entry is gone from the process table. */
  function Reap(s: State, pid: nat): (t: State)
    ensures t.processes.Keys == s.processes.Keys - {pid}
    ensures forall p | p in t.processes :: t.processes[p] == s.processes[p]
  {
    s.(processes := map p | p in s.processes && p != pid :: s.processes[p])
  }

  /** A registered child is skipped; a pid that is no zombie of ours any more is left. */
  function CollectOne(s: State, x: Seen): State {
    if x.pid in s.registry || x.pid !in s.processes || !s.processes[x.pid].zombie then s
    else
      var b := s.processes[x.pid].born;
      Reap(s, x.pid).(stolen := if b in s.handles && s.handles[b].live then s.stolen + {b} else s.stolen)
  }

  function Do(s: State, step: Step): State
    requires Enabled(s, step)
  {
    match step
    case LockToSpawn => s.(lock := Spawning)
    case Fork(pid) =>
      s.(processes := s.processes[pid := Process(s.nextBorn, false)],
         handles := s.handles[s.nextBorn := Handle(pid, true, true)],
         nextBorn := s.nextBorn + 1, lock := Forked(pid))
    case SpawnFails => s.(lock := Free)
    case Insert => s.(registry := s.registry + {s.lock.pid}, lock := Free)
    case Wait(b) => Reap(s, s.handles[b].pid).(handles := s.handles[b := s.handles[b].(live := false)])
    case Retrack(b) => s.(registry := s.registry + {s.handles[b].pid})
    case Untrack(b) =>
      s.(registry := s.registry - {s.handles[b].pid},
         handles := s.handles[b := s.handles[b].(live := false, tracked := false)])
    case Adopt(pid, zombie) =>
      s.(processes := s.processes[pid := Process(s.nextBorn, zombie)], nextBorn := s.nextBorn + 1)
    case Exit(pid) => s.(processes := s.processes[pid := s.processes[pid].(zombie := true)])
    case RuntimeReaps(pid) => Reap(s, pid)
    case LockToScan => s.(lock := Listing([]))
    case Observe(pid) => s.(lock := Listing(s.lock.seen + [Seen(pid, s.processes[pid].born)]))
    case EndList => s.(lock := Reaping(s.lock.seen, []))
    case Collect => CollectOne(s, s.lock.todo[0]).(lock := Reaping(s.lock.todo[1..], s.lock.done + [s.lock.todo[0]]))
    case EndScan => s.(lock := Free)
  }

  function Init(): State { State({}, map[], map[], 0, Free, {}) }

  // ---- Invariant ---------------------------------------------------------------------------------

  /** Every child whose owner still counts on it is registered, or about to be, under the
      lock of its spawn. */
  ghost predicate Guarded(s: State) {
    forall b | b in s.handles && s.handles[b].live ::
      s.handles[b].pid in s.registry || s.lock == Forked(s.handles[b].pid)
  }

  ghost predicate Sane(s: State) {
    && (forall b | b in s.handles :: b < s.nextBorn && (s.handles[b].live ==> s.handles[b].tracked))
    && (forall p | p in s.processes :: s.processes[p].born < s.nextBorn)
    && (forall b | b in s.handles && s.handles[b].live ::
          s.handles[b].pid in s.processes && s.processes[s.handles[b].pid].born == b)
    && (forall p | p in s.processes && s.processes[p].born in s.handles :: s.handles[s.processes[p].born].pid == p)
  }

  ghost predicate Gone(s: State, x: Seen) {
    x.born < s.nextBorn && (x.pid in s.processes ==> s.processes[x.pid].born != x.born)
  }

  /** What a scan listed is still a zombie, if it is there at all. */
  ghost predicate Listed(s: State, x: Seen) {
    x.born < s.nextBorn && (x.pid in s.processes && s.processes[x.pid].born == x.born ==> s.processes[x.pid].zombie)
  }

  ghost predicate Scanned(s: State) {
    && (s.lock.Listing? ==> forall i | 0 <= i < |s.lock.seen| :: Listed(s, s.lock.seen[i]))
    && (s.lock.Reaping? ==>
          && (forall i | 0 <= i < |s.lock.todo| :: Listed(s, s.lock.todo[i]))
          && (forall i | 0 <= i < |s.lock.done| :: s.lock.done[i].pid in s.registry || Gone(s, s.lock.done[i])))
  }

  ghost predicate Inv(s: State) {
    Sane(s) && Guarded(s) && Scanned(s) && s.stolen == {}
  }

  /** No other owner counts on the pid that is about to be taken off. */
  ghost predicate Harmless(s: State, b: nat)
    requires b in s.handles
  {
    forall c | c in s.handles && s.handles[c].live && c != b :: s.handles[c].pid != s.handles[b].pid
  }

  lemma SpawnKeeps(s: State, step: Step)
    requires Inv(s) && Enabled(s, step) && (step.LockToSpawn? || step.Fork? || step.SpawnFails? || step.Insert?)
    ensures Inv(Do(s, step))
  {
  }

  lemma OwnerKeeps(s: State, step: Step)
    requires Inv(s) && Enabled(s, step) && (step.Wait? || step.Retrack?)
    ensures Inv(Do(s, step))
  {
  }

  lemma KernelKeeps(s: State, step: Step)
    requires Inv(s) && Enabled(s, step) && (step.Adopt? || step.Exit? || step.RuntimeReaps?)
    ensures Inv(Do(s, step))
  {
  }

  lemma ScanKeeps(s: State, step: Step)
    requires Inv(s) && Enabled(s, step)
    requires step.LockToScan? || step.Observe? || step.EndList? || step.Collect? || step.EndScan?
    ensures Inv(Do(s, step))
  {
  }

  lemma UntrackKeeps(s: State, b: nat)
    requires Inv(s) && Enabled(s, Untrack(b))
    ensures Guarded(Do(s, Untrack(b))) <==> Harmless(s, b)
    ensures Harmless(s, b) ==> Inv(Do(s, Untrack(b)))
  {
    var t := Do(s, Untrack(b));
    if !Harmless(s, b) {
      var c :| c in s.handles && s.handles[c].live && c != b && s.handles[c].pid == s.handles[b].pid;
      assert c in t.handles && t.handles[c].live;
    }
  }

  /** Every step keeps the invariant, taking a child off the registry exactly when that is
      harmless. */
  lemma Keeps(s: State, step: Step)
    requires Inv(s) && Enabled(s, step)
    ensures !step.Untrack? ==> Inv(Do(s, step))
    ensures step.Untrack? ==> (Guarded(Do(s, step)) <==> Harmless(s, step.born))
    ensures step.Untrack? && Harmless(s, step.born) ==> Inv(Do(s, step))
  {
    match step
    case Untrack(b) => UntrackKeeps(s, b);
    case LockToSpawn => SpawnKeeps(s, step);
    case Fork(_) => SpawnKeeps(s, step);
    case SpawnFails => SpawnKeeps(s, step);
    case Insert => SpawnKeeps(s, step);
    case Wait(_) => OwnerKeeps(s, step);
    case Retrack(_) => OwnerKeeps(s, step);
    case Adopt(_, _) => KernelKeeps(s, step);
    case Exit(_) => KernelKeeps(s, step);
    case RuntimeReaps(_) => KernelKeeps(s, step);
    case LockToScan => ScanKeeps(s, step);
    case Observe(_) => ScanKeeps(s, step);
    case EndList => ScanKeeps(s, step);
    case Collect => ScanKeeps(s, step);
    case EndScan => ScanKeeps(s, step);
  }

  // ---- Whole runs -----------------------------------------------------------------------------------

  ghost predicate Leads(s: State, steps: seq<Step>, t: State)
    decreases |steps|
  {
    if steps == [] then t == s
    else Enabled(s, steps[0]) && Leads(Do(s, steps[0]), steps[1..], t)
  }

  ghost predicate GuardedAlong(s: State, steps: seq<Step>)
    decreases |steps|
  {
    Guarded(s) && (steps != [] && Enabled(s, steps[0]) ==> GuardedAlong(Do(s, steps[0]), steps[1..]))
  }

  ghost predicate HarmlessAlong(s: State, steps: seq<Step>)
    decreases |steps|
  {
    steps != [] && Enabled(s, steps[0]) ==>
      && (steps[0].Untrack? ==> Harmless(s, steps[0].born))
      && HarmlessAlong(Do(s, steps[0]), steps[1..])
  }

  /** Over every run: all children their owners count on stay guarded exactly when no owner
      takes off a pid that another one counts on by then. */
  lemma {:induction false} GuardedIffHarmless(s: State, steps: seq<Step>)
    requires Inv(s)
    ensures GuardedAlong(s, steps) <==> HarmlessAlong(s, steps)
    decreases |steps|
  {
    if steps != [] && Enabled(s, steps[0]) {
      Keeps(s, steps[0]);
      if Guarded(Do(s, steps[0])) {
        GuardedIffHarmless(Do(s, steps[0]), steps[1..]);
      }
    }
  }

  /** While they are guarded the reaper collects none of them. */
  lemma {:induction false} NeverSteals(s: State, steps: seq<Step>, t: State)
    requires Inv(s) && Leads(s, steps, t) && GuardedAlong(s, steps)
    ensures Inv(t) && t.stolen == {}
    decreases |steps|
  {
    if steps != [] {
      Keeps(s, steps[0]);
      NeverSteals(Do(s, steps[0]), steps[1..], t);
    }
  }

  /** No pid is given to a tracked child while an owner that has waited on it still has it
      registered. */
  ghost predicate NoReissue(s: State, steps: seq<Step>)
    decreases |steps|
  {
    steps != [] && Enabled(s, steps[0]) ==>
      && (steps[0].Fork? ==> forall b | b in s.handles && s.handles[b].tracked :: s.handles[b].pid != steps[0].pid)
      && NoReissue(Do(s, steps[0]), steps[1..])
  }

  ghost predicate Distinct(s: State) {
    forall b, c | b in s.handles && c in s.handles && s.handles[b].tracked && s.handles[c].tracked && b != c ::
      s.handles[b].pid != s.handles[c].pid
  }

  lemma {:induction false} NoReissueGuards(s: State, steps: seq<Step>)
    requires Inv(s) && Distinct(s) && NoReissue(s, steps)
    ensures GuardedAlong(s, steps)
    decreases |steps|
  {
    if steps != [] && Enabled(s, steps[0]) {
      Keeps(s, steps[0]);
      NoReissueGuards(Do(s, steps[0]), steps[1..]);
    }
  }

  /** From the start of the agent, over every run in which no pid is reissued too early, the
      reaper never collects a child whose owner has neither consumed its status nor given
      it up. */
  lemma OwnersKeepTheirChildren(steps: seq<Step>, t: State)
    requires Leads(Init(), steps, t) && NoReissue(Init(), steps)
    ensures t.stolen == {} && Guarded(t)
  {
    NoReissueGuards(Init(), steps);
    NeverSteals(Init(), steps, t);
  }

  /** However owners, the kernel and the runtime interleave, a scan that has worked off its
      list has rid the table of every unregistered zombie on it. */
  lemma {:induction false} ScanCollects(s: State, steps: seq<Step>, t: State)
    requires Inv(s) && s.lock.Reaping? && Leads(s, steps, t) && (forall i | 0 <= i < |steps| :: !steps[i].EndScan?)
    ensures Inv(t) && t.lock.Reaping? && t.registry == s.registry
    ensures t.lock.done + t.lock.todo == s.lock.done + s.lock.todo
    ensures t.lock.todo == [] ==> forall x | x in s.lock.todo :: x.pid in t.registry || Gone(t, x)
    decreases |steps|
  {
    if steps != [] {
      Keeps(s, steps[0]);
      var u := Do(s, steps[0]);
      assert u.lock.done + u.lock.todo == s.lock.done + s.lock.todo;
      ScanCollects(u, steps[1..], t);
    }
    if t.lock.todo == [] {
      forall x | x in s.lock.todo
        ensures x.pid in t.registry || Gone(t, x)
      {
        var i :| 0 <= i < |s.lock.todo| && s.lock.todo[i] == x;
        assert (s.lock.done + s.lock.todo)[|s.lock.done| + i] == x;
      }
    }
  }

  // ---- The table can always be cleared ----------------------------------------------------------------

  /** `t` has the processes of `s` but for some unregistered zombies. */
  ghost predicate Thins(s: State, t: State) {
    && t.handles == s.handles && t.stolen == s.stolen
    && (forall p | p in t.processes :: p in s.processes && t.processes[p] == s.processes[p])
    && (forall p | p in s.processes && (!s.processes[p].zombie || p in t.registry) :: p in t.processes)
  }

  lemma {:induction false} ReapingEnds(s: State) returns (steps: seq<Step>, t: State)
    requires Inv(s) && s.lock.Reaping?
    ensures Leads(s, steps, t) && Inv(t) && t.lock.Free? && t.registry == s.registry && Thins(s, t)
    ensures forall x | x in s.lock.todo && x.pid in t.processes && t.processes[x.pid].zombie :: x.pid in t.registry
    decreases |s.lock.todo|
  {
    if s.lock.todo == [] {
      t := Do(s, EndScan);
      Keeps(s, EndScan);
      LeadsFirst(s, EndScan, [], t);
      steps := [EndScan];
    } else {
      var u := Do(s, Collect);
      Keeps(s, Collect);
      var rest;
      rest, t := ReapingEnds(u);
      LeadsFirst(s, Collect, rest, t);
      steps := [Collect] + rest;
      assert forall x | x in s.lock.todo :: x == s.lock.todo[0] || x in u.lock.todo;
    }
  }

  ghost predicate Awaits(s: State, left: set<nat>)
    requires s.lock.Listing?
  {
    forall p | p in s.processes && s.processes[p].zombie :: p in left || exists x | x in s.lock.seen :: x.pid == p
  }

  lemma ObserveAwaits(s: State, left: set<nat>, p: nat)
    requires s.lock.Listing? && Awaits(s, left) && p in left && Enabled(s, Observe(p))
    ensures Awaits(Do(s, Observe(p)), left - {p})
  {
    var u := Do(s, Observe(p));
    assert u.lock.seen[|s.lock.seen|].pid == p;
    forall q | q in u.processes && u.processes[q].zombie
      ensures q in left - {p} || exists x | x in u.lock.seen :: x.pid == q
    {
      if q !in left {
        var x :| x in s.lock.seen && x.pid == q;
        assert x in u.lock.seen;
      } else if q == p {
        assert u.lock.seen[|s.lock.seen|] in u.lock.seen;
      }
    }
  }

  lemma {:induction false} ListingEnds(s: State, left: set<nat>) returns (steps: seq<Step>, t: State)
    requires Inv(s) && s.lock.Listing? && Awaits(s, left)
    requires forall p | p in left :: p in s.processes && s.processes[p].zombie
    ensures Leads(s, steps, t) && Inv(t) && t.lock.Free? && t.registry == s.registry && Thins(s, t)
    ensures forall p | p in t.processes && t.processes[p].zombie :: p in t.registry
    decreases |left|
  {
    var rest;
    if left == {} {
      Keeps(s, EndList);
      rest, t := ReapingEnds(Do(s, EndList));
      LeadsFirst(s, EndList, rest, t);
      steps := [EndList] + rest;
    } else {
      var p :| p in left;
      Keeps(s, Observe(p));
      ObserveAwaits(s, left, p);
      rest, t := ListingEnds(Do(s, Observe(p)), left - {p});
      LeadsFirst(s, Observe(p), rest, t);
      steps := [Observe(p)] + rest;
    }
  }

  /** The holder of the lock can always give it back. */
  lemma LockFrees(s: State) returns (steps: seq<Step>, t: State)
    requires Inv(s)
    ensures Leads(s, steps, t) && Inv(t) && t.lock.Free? && s.registry <= t.registry && Thins(s, t)
  {
    match s.lock
    case Free => steps, t := [], s;
    case Spawning =>
      Keeps(s, SpawnFails);
      steps, t := [SpawnFails], Do(s, SpawnFails);
      LeadsFirst(s, SpawnFails, [], t);
    case Forked(_) =>
      Keeps(s, Insert);
      steps, t := [Insert], Do(s, Insert);
      LeadsFirst(s, Insert, [], t);
    case Listing(_) =>
      Keeps(s, EndList);
      var rest;
      rest, t := ReapingEnds(Do(s, EndList));
      LeadsFirst(s, EndList, rest, t);
      steps := [EndList] + rest;
    case Reaping(_, _) => steps, t := ReapingEnds(s);
  }

  /** From every state with its invariant, whoever holds the lock: the holder finishes, one scan
      follows, and every unregistered zombie is gone, with nothing else touched. */
  lemma CanBeCleared(s: State) returns (steps: seq<Step>, t: State)
    requires Inv(s)
    ensures Leads(s, steps, t) && Inv(t) && t.lock.Free? && s.registry <= t.registry && Thins(s, t)
    ensures forall p | p in t.processes && t.processes[p].zombie :: p in t.registry
  {
    var first, u := LockFrees(s);
    var v := Do(u, LockToScan);
    Keeps(u, LockToScan);
    var zombies := set p | p in v.processes && v.processes[p].zombie;
    var rest;
    rest, t := ListingEnds(v, zombies);
    LeadsFirst(u, LockToScan, rest, t);
    LeadsOn(s, first, u, [LockToScan] + rest, t);
    steps := first + ([LockToScan] + rest);
  }

  /** Registering a pid again undoes what an untrack of the same pid took from its owner. */
  lemma RetrackHeals(s: State, b: nat)
    requires Sane(s) && Scanned(s) && s.stolen == {} && s.lock.Free? && b in s.handles && s.handles[b].live
    ensures Enabled(s, Retrack(b))
    ensures Inv(Do(s, Retrack(b))) <==>
              forall c | c in s.handles && s.handles[c].live && s.handles[c].pid !in s.registry :: c == b
  {
    var t := Do(s, Retrack(b));
    if Inv(t) {
      forall c | c in s.handles && s.handles[c].live && s.handles[c].pid !in s.registry
        ensures c == b
      {
        assert t.handles[c].pid in t.registry;
      }
    }
  }

  /** A child its owner gives up while it runs is reaped by the runtime once it exits. */
  lemma GivenUpIsReaped(s: State, b: nat) returns (t: State)
    requires Inv(s) && s.lock.Free? && b in s.handles && s.handles[b].live
    ensures var pid := s.handles[b].pid;
            Leads(s, [Untrack(b), Exit(pid), RuntimeReaps(pid)], t) && pid !in t.processes && t.stolen == s.stolen
  {
    var pid := s.handles[b].pid;
    var s1 := Do(s, Untrack(b));
    var s2 := Do(s1, Exit(pid));
    t := Do(s2, RuntimeReaps(pid));
    LeadsFirst(s2, RuntimeReaps(pid), [], t);
    LeadsFirst(s1, Exit(pid), [RuntimeReaps(pid)], t);
    LeadsFirst(s, Untrack(b), [Exit(pid), RuntimeReaps(pid)], t);
  }

  /** A zombie that falls to this process under an unregistered pid is gone after one scan. */
  lemma OrphanIsCollected(s: State, pid: nat) returns (steps: seq<Step>, t: State)
    requires Inv(s) && s.lock.Free? && pid !in s.processes && pid !in s.registry
    ensures Leads(s, [Adopt(pid, true)] + steps, t) && Inv(t) && t.lock.Free? && pid !in t.processes
  {
    var u := Do(s, Adopt(pid, true));
    Keeps(s, Adopt(pid, true));
    var v := Do(u, LockToScan);
    Keeps(u, LockToScan);
    var zombies := set p | p in v.processes && v.processes[p].zombie;
    var rest;
    rest, t := ListingEnds(v, zombies);
    LeadsFirst(u, LockToScan, rest, t);
    LeadsFirst(s, Adopt(pid, true), [LockToScan] + rest, t);
    steps := [LockToScan] + rest;
  }

  // ---- The process table balances --------------------------------------------------------------------

  predicate Comes(step: Step) { step.Fork? || step.Adopt? }

  /** The step takes a zombie's entry off the table: its owner waits, the runtime reaps a child
      that was given up, or the scan collects an unregistered one. */
  predicate Reaps(s: State, step: Step)
    requires Enabled(s, step)
  {
    || step.Wait? || step.RuntimeReaps?
    || (step.Collect? &&
          var pid := s.lock.todo[0].pid;
          pid !in s.registry && pid in s.processes && s.processes[pid].zombie)
  }

  function Once(holds: bool): nat { if holds then 1 else 0 }

  function Arrivals(steps: seq<Step>): nat
    decreases |steps|
  {
    if steps == [] then 0 else Once(Comes(steps[0])) + Arrivals(steps[1..])
  }

  ghost function Reaped(s: State, steps: seq<Step>, t: State): nat
    requires Leads(s, steps, t)
    decreases |steps|
  {
    if steps == [] then 0 else Once(Reaps(s, steps[0])) + Reaped(Do(s, steps[0]), steps[1..], t)
  }

  lemma ReapTakesOne(s: State, pid: nat)
    requires pid in s.processes
    ensures |Reap(s, pid).processes| + 1 == |s.processes|
  {
    var t := Reap(s, pid);
    assert |t.processes.Keys| + 1 == |s.processes.Keys|;
    assert |t.processes| == |t.processes.Keys| && |s.processes| == |s.processes.Keys|;
  }

  lemma PutAddsOne(processes: map<nat, Process>, pid: nat, p: Process)
    ensures |processes[pid := p]| == |processes| + Once(pid !in processes)
  {
    var now := processes[pid := p];
    assert now.Keys == processes.Keys + {pid};
    assert |now| == |now.Keys| && |processes| == |processes.Keys|;
  }

  lemma BalancesOn(s: State, step: Step)
    requires Enabled(s, step)
    ensures |Do(s, step).processes| + Once(Reaps(s, step)) == |s.processes| + Once(Comes(step))
  {
    hide Reap;
    match step
    case Fork(pid) => PutAddsOne(s.processes, pid, Process(s.nextBorn, false));
    case Adopt(pid, zombie) => PutAddsOne(s.processes, pid, Process(s.nextBorn, zombie));
    case Exit(pid) => PutAddsOne(s.processes, pid, s.processes[pid].(zombie := true));
    case Wait(b) => ReapTakesOne(s, s.handles[b].pid);
    case RuntimeReaps(pid) => ReapTakesOne(s, pid);
    case Collect => if Reaps(s, step) { ReapTakesOne(s, s.lock.todo[0].pid); }
    case _ =>
  }

  /** Over every run: each process that was forked or adopted is on the table or was reaped, by
      its owner, the runtime or the scan, once. */
  lemma {:induction false} TableBalances(s: State, steps: seq<Step>, t: State)
    requires Leads(s, steps, t)
    ensures |t.processes| + Reaped(s, steps, t) == |s.processes| + Arrivals(steps)
    decreases |steps|
  {
    if steps != [] {
      BalancesOn(s, steps[0]);
      hide Do, Enabled, Reaps;
      TableBalances(Do(s, steps[0]), steps[1..], t);
    }
  }

  ghost predicate Exited(steps: seq<Step>, pid: nat) {
    Exit(pid) in steps || Adopt(pid, true) in steps
  }

  lemma ZombiesOn(s: State, step: Step, pid: nat)
    requires Enabled(s, step)
    requires pid in Do(s, step).processes && Do(s, step).processes[pid].zombie
    ensures (pid in s.processes && s.processes[pid].zombie) || step == Exit(pid) || step == Adopt(pid, true)
  {
  }

  /** Over every run a zombie has exited, or was one when it was adopted. */
  lemma {:induction false} ZombiesExited(s: State, steps: seq<Step>, t: State, pid: nat)
    requires Leads(s, steps, t) && pid in t.processes && t.processes[pid].zombie
    ensures (pid in s.processes && s.processes[pid].zombie) || Exited(steps, pid)
    decreases |steps|
  {
    if steps != [] {
      var u := Do(s, steps[0]);
      ZombiesExited(u, steps[1..], t, pid);
      if pid in u.processes && u.processes[pid].zombie && !Exited(steps[1..], pid) { ZombiesOn(s, steps[0], pid); }
    }
  }

  /** A pid that its owner has waited on and taken off is forked again. */
  function Again(b: nat, pid: nat): seq<Step> { [Untrack(b), LockToSpawn, Fork(pid), Insert] }

  lemma AgainLeads(s: State, b: nat) returns (t: State)
    requires s.lock.Free? && b in s.handles && s.handles[b].tracked && s.handles[b].pid !in s.processes && Distinct(s)
    ensures Leads(s, Again(b, s.handles[b].pid), t) && NoReissue(s, Again(b, s.handles[b].pid))
  {
    var pid := s.handles[b].pid;
    var s1 := Do(s, Untrack(b));
    var s2 := Do(s1, LockToSpawn);
    var s3 := Do(s2, Fork(pid));
    t := Do(s3, Insert);
    assert forall c | c in s2.handles && s2.handles[c].tracked :: s2.handles[c].pid != pid;
    hide Do, Distinct;
    LeadsFirst(s3, Insert, [], t);
    LeadsFirst(s2, Fork(pid), [Insert], t);
    LeadsFirst(s1, LockToSpawn, [Fork(pid), Insert], t);
    LeadsFirst(s, Untrack(b), [LockToSpawn, Fork(pid), Insert], t);
    NoReissueOn(s3, Insert, []);
    NoReissueOn(s2, Fork(pid), [Insert]);
    NoReissueOn(s1, LockToSpawn, [Fork(pid), Insert]);
    NoReissueOn(s, Untrack(b), [LockToSpawn, Fork(pid), Insert]);
  }

  /** Wait, untrack, and only then the pid is forked again: no owner is at risk. */
  lemma OrderlyReissue(s: State, b: nat) returns (t: State)
    requires Inv(s) && Distinct(s) && s.lock.Free? && Enabled(s, Wait(b))
    ensures var steps := [Wait(b)] + Again(b, s.handles[b].pid);
            Leads(s, steps, t) && NoReissue(s, steps) && GuardedAlong(s, steps)
  {
    var pid := s.handles[b].pid;
    var u := Do(s, Wait(b));
    assert u.lock.Free? && b in u.handles && u.handles[b].tracked && u.handles[b].pid == pid && pid !in u.processes;
    assert Distinct(u);
    hide Do, Inv, Distinct, Enabled, NoReissue, GuardedAlong, Leads, Again;
    t := AgainLeads(u, b);
    LeadsFirst(s, Wait(b), Again(b, pid), t);
    NoReissueOn(s, Wait(b), Again(b, pid));
    NoReissueGuards(s, [Wait(b)] + Again(b, pid));
  }

  lemma NoReissueOn(s: State, step: Step, rest: seq<Step>)
    requires Enabled(s, step) && NoReissue(Do(s, step), rest)
    requires step.Fork? ==> forall b | b in s.handles && s.handles[b].tracked :: s.handles[b].pid != step.pid
    ensures NoReissue(s, [step] + rest)
  {
    assert ([step] + rest)[1..] == rest;
  }

  // ---- A pid reissued too early ---------------------------------------------------------------------

  lemma LeadsFirst(s: State, step: Step, rest: seq<Step>, t: State)
    requires Enabled(s, step) && Leads(Do(s, step), rest, t)
    ensures Leads(s, [step] + rest, t)
  {
    assert ([step] + rest)[1..] == rest;
  }

  lemma {:induction false} LeadsOn(s: State, a: seq<Step>, t: State, b: seq<Step>, u: State)
    requires Leads(s, a, t) && Leads(t, b, u)
    ensures Leads(s, a + b, u)
    decreases |a|
  {
    if a == [] {
      assert a + b == b;
    } else {
      LeadsOn(Do(s, a[0]), a[1..], t, b, u);
      assert (a + b)[1..] == a[1..] + b;
    }
  }

  /** A tracked child on `pid` that exits at once. */
  function Short(pid: nat): seq<Step> { [LockToSpawn, Fork(pid), Insert, Exit(pid)] }

  lemma ShortLeads(s: State, pid: nat) returns (t: State)
    requires s.lock.Free? && pid !in s.processes
    ensures Leads(s, Short(pid), t) && t.lock.Free? && t.registry == s.registry + {pid} && t.stolen == s.stolen
    ensures t.processes == s.processes[pid := Process(s.nextBorn, true)]
    ensures t.handles == s.handles[s.nextBorn := Handle(pid, true, true)] && t.nextBorn == s.nextBorn + 1
  {
    var s1 := Do(s, LockToSpawn);
    var s2 := Do(s1, Fork(pid));
    var s3 := Do(s2, Insert);
    t := Do(s3, Exit(pid));
    LeadsFirst(s3, Exit(pid), [], t);
    LeadsFirst(s2, Insert, [Exit(pid)], t);
    LeadsFirst(s1, Fork(pid), [Insert, Exit(pid)], t);
    LeadsFirst(s, LockToSpawn, [Fork(pid), Insert, Exit(pid)], t);
  }

  function Scan(pid: nat): seq<Step> { [LockToScan, Observe(pid), EndList, Collect] }

  lemma ScanLeads(s: State, pid: nat) returns (t: State)
    requires s.lock.Free? && pid in s.processes && s.processes[pid].zombie && pid !in s.registry
    requires s.processes[pid].born in s.handles && s.handles[s.processes[pid].born].live
    ensures Leads(s, Scan(pid), t) && s.processes[pid].born in t.stolen
  {
    var s1 := Do(s, LockToScan);
    var s2 := Do(s1, Observe(pid));
    var s3 := Do(s2, EndList);
    t := Do(s3, Collect);
    LeadsFirst(s3, Collect, [], t);
    LeadsFirst(s2, EndList, [Collect], t);
    LeadsFirst(s1, Observe(pid), [EndList, Collect], t);
    LeadsFirst(s, LockToScan, [Observe(pid), EndList, Collect], t);
  }

  /** Some continuation, with no further harmful untrack, collects a child under its owner. */
  ghost predicate Steals(s: State) {
    exists steps, t :: Leads(s, steps, t) && HarmlessAlong(s, steps) && t.stolen != {}
  }

  /** An unregistered child that its owner still counts on is collected by the next scan after
      it exits. */
  lemma UnguardedIsStolen(s: State, b: nat) returns (t: State)
    requires Sane(s) && s.lock.Free? && b in s.handles && s.handles[b].live && s.handles[b].pid !in s.registry
    ensures Leads(s, [Exit(s.handles[b].pid)] + Scan(s.handles[b].pid), t) && b in t.stolen
  {
    var pid := s.handles[b].pid;
    t := ScanLeads(Do(s, Exit(pid)), pid);
    LeadsFirst(s, Exit(pid), Scan(pid), t);
  }

  lemma {:induction false} NoUntrackHarmless(s: State, steps: seq<Step>)
    requires forall i | 0 <= i < |steps| :: !steps[i].Untrack?
    ensures HarmlessAlong(s, steps)
    decreases |steps|
  {
    if steps != [] && Enabled(s, steps[0]) { NoUntrackHarmless(Do(s, steps[0]), steps[1..]); }
  }

  lemma InvIsSafe(s: State)
    requires Inv(s)
    ensures !Steals(s)
  {
    forall steps, t | Leads(s, steps, t) && HarmlessAlong(s, steps)
      ensures t.stolen == {}
    {
      GuardedIffHarmless(s, steps);
      NeverSteals(s, steps, t);
    }
  }

  /** Taking a pid off the registry lets a status be stolen, by some continuation, exactly when
      another owner counts on that pid. */
  lemma UntrackStealsIff(s: State, b: nat)
    requires Inv(s) && Enabled(s, Untrack(b))
    ensures Steals(Do(s, Untrack(b))) <==> !Harmless(s, b)
  {
    UntrackKeeps(s, b);
    var u := Do(s, Untrack(b));
    if Harmless(s, b) {
      InvIsSafe(u);
    } else {
      var c :| c in s.handles && s.handles[c].live && c != b && s.handles[c].pid == s.handles[b].pid;
      UntrackStaysSane(s, b);
      var t := UnguardedIsStolen(u, c);
      NoUntrackHarmless(u, [Exit(u.handles[c].pid)] + Scan(u.handles[c].pid));
    }
  }

  lemma UntrackStaysSane(s: State, b: nat)
    requires Sane(s) && Enabled(s, Untrack(b))
    ensures Sane(Do(s, Untrack(b)))
  {
  }

  /** At no point of the run can a status be stolen. */
  ghost predicate SafeAlong(s: State, steps: seq<Step>)
    decreases |steps|
  {
    !Steals(s) && (steps != [] && Enabled(s, steps[0]) ==> SafeAlong(Do(s, steps[0]), steps[1..]))
  }

  /** Over every run: no owner can lose a status it counts on exactly when no owner takes off a
      pid that another one counts on by then. */
  lemma {:induction false} SafeIffHarmless(s: State, steps: seq<Step>)
    requires Inv(s)
    ensures SafeAlong(s, steps) <==> HarmlessAlong(s, steps)
    decreases |steps|
  {
    InvIsSafe(s);
    if steps != [] && Enabled(s, steps[0]) {
      Keeps(s, steps[0]);
      if steps[0].Untrack? { UntrackStealsIff(s, steps[0].born); }
      hide Inv, Steals, Harmless, Do, Enabled;
      if steps[0].Untrack? && !Harmless(s, steps[0].born) {
        assert !SafeAlong(Do(s, steps[0]), steps[1..]);
      } else {
        SafeIffHarmless(Do(s, steps[0]), steps[1..]);
      }
    }
  }

  /** The first owner waits, a second child gets the pid, the first owner takes the pid off,
      and the scan collects the second child under its owner. */
  lemma ReissueSteals(pid: nat) returns (t: State)
    ensures Leads(Init(), Short(pid) + ([Wait(0)] + (Short(pid) + ([Untrack(0)] + Scan(pid)))), t)
    ensures 1 in t.stolen
  {
    var a := ShortLeads(Init(), pid);
    var b := Do(a, Wait(0));
    var c := ShortLeads(b, pid);
    var d := Do(c, Untrack(0));
    t := ScanLeads(d, pid);
    LeadsFirst(c, Untrack(0), Scan(pid), t);
    LeadsOn(b, Short(pid), c, [Untrack(0)] + Scan(pid), t);
    LeadsFirst(a, Wait(0), Short(pid) + ([Untrack(0)] + Scan(pid)), t);
    LeadsOn(Init(), Short(pid), a, [Wait(0)] + (Short(pid) + ([Untrack(0)] + Scan(pid))), t);
  }
}
