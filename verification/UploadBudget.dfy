/** The host-wide upload budget: a global FIFO semaphore, and a nested one that a background
    upload takes first and holds as long as the global slot. */
module UploadBudget {
  import opened Wrappers

  datatype Request = Request(id: nat, background: bool)

  /** `nested` and `global` are the two queues, oldest first. A background request that holds
      a nested slot and has not yet asked for a global one is `between` them. */
  datatype State = State(cap: nat, backgroundCap: nat, globalFree: nat, nestedFree: nat, nested: seq<Request>,
                         between: seq<Request>, global: seq<Request>, held: seq<Request>)

  datatype Step =
    | Arrive(id: nat, background: bool)
    | GrantNested
    | Enqueue(between: nat)
    | GrantGlobal
    | CancelNested(i: nat)
    | CancelBetween(i: nat)
    | CancelGlobal(i: nat)
    | Drop(i: nat)

  /** The caps are at least one, and the nested one no wider than the global one. */
  function WithBackgroundCap(permits: nat, background: nat): (s: State)
    ensures Inv(s) && s.nested == s.between == s.global == s.held == []
    ensures s.cap >= permits && (s.cap == permits || s.cap == 1)
    ensures s.backgroundCap == background || (background == 0 && s.backgroundCap == 1)
            || (background > s.cap && s.backgroundCap == s.cap)
  {
    var cap := if permits == 0 then 1 else permits;
    var backgroundCap := if background == 0 then 1 else if background > cap then cap else background;
    State(cap, backgroundCap, cap, backgroundCap, [], [], [], [])
  }

  predicate Enabled(s: State, step: Step) {
    match step
    case Arrive(_, _) => true
    case GrantNested => s.nested != [] && s.nestedFree > 0
    case Enqueue(i) => i < |s.between|
    case GrantGlobal => s.global != [] && s.globalFree > 0
    case CancelNested(i) => i < |s.nested|
    case CancelBetween(i) => i < |s.between|
    case CancelGlobal(i) => i < |s.global|
    case Drop(i) => i < |s.held|
  }

  /** A slot given back: one nested slot too if the request was a background one. */
  function Returned(s: State, r: Request): State {
    if r.background then s.(nestedFree := s.nestedFree + 1) else s
  }

  function Do(s: State, step: Step): State
    requires Enabled(s, step)
  {
    match step
    case Arrive(id, background) =>
      if background then s.(nested := s.nested + [Request(id, true)]) else s.(global := s.global + [Request(id, false)])
    case GrantNested =>
      s.(nestedFree := s.nestedFree - 1, nested := s.nested[1..], between := s.between + [s.nested[0]])
    case Enqueue(i) => s.(between := Without(s.between, i), global := s.global + [s.between[i]])
    case GrantGlobal => s.(globalFree := s.globalFree - 1, global := s.global[1..], held := s.held + [s.global[0]])
    case CancelNested(i) => s.(nested := Without(s.nested, i))
    case CancelBetween(i) => Returned(s.(between := Without(s.between, i)), s.between[i])
    case CancelGlobal(i) => Returned(s.(global := Without(s.global, i)), s.global[i])
    case Drop(i) => Returned(s.(held := Without(s.held, i), globalFree := s.globalFree + 1), s.held[i])
  }

  function Background(s: seq<Request>): (n: nat)
    ensures n <= |s|
  {
    if s == [] then 0 else Background(s[..|s| - 1]) + if s[|s| - 1].background then 1 else 0
  }

  /** Nothing is lost and nothing is created on either semaphore. */
  ghost predicate Inv(s: State) {
    && 1 <= s.backgroundCap <= s.cap
    && s.globalFree + |s.held| == s.cap
    && s.nestedFree + |s.between| + Background(s.global) + Background(s.held) == s.backgroundCap
    && (forall i | 0 <= i < |s.nested| :: s.nested[i].background)
    && (forall i | 0 <= i < |s.between| :: s.between[i].background)
  }

  lemma BackgroundSnoc(s: seq<Request>, r: Request)
    ensures Background(s + [r]) == Background(s) + if r.background then 1 else 0
  {
    assert (s + [r])[..|s|] == s;
  }

  lemma {:induction false} BackgroundConcat(s: seq<Request>, t: seq<Request>)
    ensures Background(s + t) == Background(s) + Background(t)
    decreases |t|
  {
    if t == [] {
      assert s + t == s;
    } else {
      BackgroundConcat(s, t[..|t| - 1]);
      BackgroundSnoc(s + t[..|t| - 1], t[|t| - 1]);
      assert s + t == s + t[..|t| - 1] + [t[|t| - 1]];
    }
  }

  lemma {:induction false} BackgroundWithout(s: seq<Request>, i: nat)
    requires i < |s|
    ensures Background(s) == Background(Without(s, i)) + if s[i].background then 1 else 0
  {
    var last := |s| - 1;
    if i == last {
      assert Without(s, i) == s[..last];
    } else {
      BackgroundWithout(s[..last], i);
      assert Without(s, i) == Without(s[..last], i) + [s[last]];
      BackgroundSnoc(Without(s[..last], i), s[last]);
    }
  }

  lemma Keeps(s: State, step: Step)
    requires Inv(s) && Enabled(s, step)
    ensures Inv(Do(s, step))
  {
    hide Background;
    match step
    case Arrive(id, background) => BackgroundSnoc(s.global, Request(id, background));
    case GrantNested =>
    case Enqueue(i) => BackgroundSnoc(s.global, s.between[i]);
    case GrantGlobal =>
      BackgroundWithout(s.global, 0);
      assert Without(s.global, 0) == s.global[1..];
      BackgroundSnoc(s.held, s.global[0]);
    case CancelNested(i) =>
    case CancelBetween(i) =>
    case CancelGlobal(i) => BackgroundWithout(s.global, i);
    case Drop(i) => BackgroundWithout(s.held, i);
  }

  ghost predicate Leads(s: State, steps: seq<Step>, t: State)
    decreases |steps|
  {
    if steps == [] then t == s
    else Enabled(s, steps[0]) && Leads(Do(s, steps[0]), steps[1..], t)
  }

  /** Over every run: the slots in flight stay within the cap, background requests in flight
      or queued globally within the nested cap, and free plus taken is constant on both. */
  lemma {:induction false} Conserves(s: State, steps: seq<Step>, t: State)
    requires Inv(s) && Leads(s, steps, t)
    ensures Inv(t) && t.cap == s.cap && t.backgroundCap == s.backgroundCap
    ensures |t.held| <= t.cap && Background(t.held) + Background(t.global) <= t.backgroundCap
    decreases |steps|
  {
    if steps != [] {
      Keeps(s, steps[0]);
      Conserves(Do(s, steps[0]), steps[1..], t);
    }
  }

  // ---- Nobody is lost --------------------------------------------------------------------------

  function Count(a: seq<Request>, r: Request): nat { multiset(a)[r] }

  /** How often a request is in one of the queues or holds a slot. */
  function Present(s: State, r: Request): nat {
    Count(s.nested, r) + Count(s.between, r) + Count(s.global, r) + Count(s.held, r)
  }

  function Once(holds: bool): nat { if holds then 1 else 0 }

  /** How often it arrives in a run. */
  function Arrived(steps: seq<Step>, r: Request): nat
    decreases |steps|
  {
    if steps == [] then 0 else Once(steps[0] == Arrive(r.id, r.background)) + Arrived(steps[1..], r)
  }

  /** The request a step cancels or drops. */
  function Departs(s: State, step: Step): Option<Request>
    requires Enabled(s, step)
  {
    match step
    case CancelNested(i) => Some(s.nested[i])
    case CancelBetween(i) => Some(s.between[i])
    case CancelGlobal(i) => Some(s.global[i])
    case Drop(i) => Some(s.held[i])
    case _ => None
  }

  /** How often it is cancelled or dropped. */
  ghost function Departed(s: State, steps: seq<Step>, t: State, r: Request): nat
    requires Leads(s, steps, t)
    decreases |steps|
  {
    if steps == [] then 0
    else Once(Departs(s, steps[0]) == Some(r)) + Departed(Do(s, steps[0]), steps[1..], t, r)
  }

  lemma HeadMoves(a: seq<Request>, b: seq<Request>, r: Request)
    requires a != []
    ensures Count(a[1..], r) + Count(b + [a[0]], r) == Count(a, r) + Count(b, r)
  {
    assert a == [a[0]] + a[1..];
  }

  lemma OneGoes(a: seq<Request>, i: nat, r: Request)
    requires i < |a|
    ensures Count(Without(a, i), r) + Once(a[i] == r) == Count(a, r)
  {
    assert multiset(a)[r] == (multiset(Without(a, i)) + multiset{a[i]})[r];
  }

  lemma OneComes(a: seq<Request>, x: Request, r: Request)
    ensures Count(a + [x], r) == Count(a, r) + Once(x == r)
  {
  }

  lemma PresentStep(s: State, step: Step, r: Request)
    requires Enabled(s, step)
    ensures Present(Do(s, step), r) + Once(Departs(s, step) == Some(r))
            == Present(s, r) + Once(step == Arrive(r.id, r.background))
  {
    hide Without, Count;
    match step
    case Arrive(id, background) => OneComes(if background then s.nested else s.global, Request(id, background), r);
    case GrantNested => HeadMoves(s.nested, s.between, r);
    case GrantGlobal => HeadMoves(s.global, s.held, r);
    case Enqueue(i) =>
      OneGoes(s.between, i, r);
      OneComes(s.global, s.between[i], r);
    case CancelNested(i) => OneGoes(s.nested, i, r);
    case CancelBetween(i) => OneGoes(s.between, i, r);
    case CancelGlobal(i) => OneGoes(s.global, i, r);
    case Drop(i) => OneGoes(s.held, i, r);
  }

  /** Over every run and for every id and class: a request that arrived is in exactly one queue
      or holds a slot until it is cancelled or dropped, and nobody else is there. */
  lemma {:induction false} NobodyLost(s: State, steps: seq<Step>, t: State, r: Request)
    requires Leads(s, steps, t)
    ensures Present(t, r) + Departed(s, steps, t, r) == Present(s, r) + Arrived(steps, r)
    decreases |steps|
  {
    if steps != [] {
      PresentStep(s, steps[0], r);
      hide Present, Do, Enabled, Departs;
      NobodyLost(Do(s, steps[0]), steps[1..], t, r);
    }
  }

  predicate Waits(s: State) {
    s.nested != [] || s.between != [] || s.global != []
  }

  /** With anybody waiting, something can be granted or a held slot can be dropped. */
  lemma NoDeadlock(s: State)
    requires Inv(s) && Waits(s)
    ensures Enabled(s, GrantNested) || Enabled(s, Enqueue(0)) || Enabled(s, GrantGlobal) || Enabled(s, Drop(0))
  {
  }

  // ---- First come, first served ----------------------------------------------------------------

  /** The two queues. */
  datatype Line = NestedLine | GlobalLine

  function Queue(s: State, line: Line): seq<Request> {
    if line.NestedLine? then s.nested else s.global
  }

  predicate Serves(step: Step, line: Line) {
    if line.NestedLine? then step.GrantNested? else step.GrantGlobal?
  }

  /** The place whose request gives up, if one does. */
  function GivesUp(step: Step, line: Line): Option<nat> {
    if line.NestedLine? then if step.CancelNested? then Some(step.i) else None
    else if step.CancelGlobal? then Some(step.i)
    else None
  }

  /** Where the request at place `p` is after a step, if it still waits there. */
  function NextPlace(p: nat, step: Step, line: Line): Option<nat> {
    if Serves(step, line) then if p == 0 then None else Some(p - 1)
    else
      match GivesUp(step, line)
      case None => Some(p)
      case Some(i) => if i < p then Some(p - 1) else if i == p then None else Some(p)
  }

  function Place(p: nat, steps: seq<Step>, line: Line): Option<nat>
    decreases |steps|
  {
    if steps == [] then Some(p)
    else if NextPlace(p, steps[0], line).None? then None
    else Place(NextPlace(p, steps[0], line).value, steps[1..], line)
  }

  function Grants(steps: seq<Step>, line: Line): nat
    decreases |steps|
  {
    if steps == [] then 0 else Grants(steps[1..], line) + if Serves(steps[0], line) then 1 else 0
  }

  /** Over every run, in either queue: while a request waits, only requests that were ahead of
      it from the start are ahead of it, and every grant went to one of those. */
  lemma {:induction false} NeverOvertaken(s: State, steps: seq<Step>, t: State, p: nat, line: Line)
    requires Leads(s, steps, t) && p < |Queue(s, line)| && Place(p, steps, line).Some?
    ensures var q := Place(p, steps, line).value;
            Continues(Queue(s, line), p, Queue(t, line), q) && Grants(steps, line) + q <= p
    decreases |steps|
  {
    if steps != [] {
      var u, q := Do(s, steps[0]), NextPlace(p, steps[0], line).value;
      StaysAhead(s, steps[0], p, line);
      assert q < |Queue(u, line)|;
      hide Do, Enabled, Queue, Continues;
      NeverOvertaken(u, steps[1..], t, q, line);
      ContinuesOn(Queue(s, line), p, Queue(u, line), q, Queue(t, line), Place(p, steps, line).value);
    }
  }

  /** `now` at `q` continues `was` at `p`: the same request, with nobody new ahead. */
  ghost predicate Continues(was: seq<Request>, p: nat, now: seq<Request>, q: nat) {
    p < |was| && q < |now| && now[q] == was[p] && multiset(now[..q]) <= multiset(was[..p])
  }

  lemma HeadLeaves(was: seq<Request>, p: nat)
    requires 0 < p < |was|
    ensures Continues(was, p, was[1..], p - 1)
  {
    assert was[..p] == [was[0]] + was[1..][..p - 1];
  }

  lemma OneLeaves(was: seq<Request>, i: nat, p: nat)
    requires i < |was| && p < |was| && i != p
    ensures Continues(was, p, Without(was, i), if i < p then p - 1 else p)
  {
    if i < p {
      assert Without(was, i)[..p - 1] == was[..i] + was[i + 1..p];
      assert was[..p] == was[..i] + [was[i]] + was[i + 1..p];
    } else {
      assert Without(was, i)[..p] == was[..p];
    }
  }

  lemma MoreBehind(was: seq<Request>, now: seq<Request>, p: nat)
    requires was <= now && p < |was|
    ensures Continues(was, p, now, p)
  {
    assert now[..p] == was[..p];
  }

  lemma ContinuesOn(a: seq<Request>, p: nat, b: seq<Request>, q: nat, c: seq<Request>, r: nat)
    requires Continues(a, p, b, q) && Continues(b, q, c, r)
    ensures Continues(a, p, c, r)
  {
  }

  /** What a step does to a queue: it loses its head, a request that gives up, or gains a
      last one. */
  lemma QueueMoves(s: State, step: Step, line: Line)
    requires Enabled(s, step)
    ensures var was, now := Queue(s, line), Queue(Do(s, step), line);
            if Serves(step, line) then was != [] && now == was[1..]
            else if GivesUp(step, line).Some? then
              GivesUp(step, line).value < |was| && now == Without(was, GivesUp(step, line).value)
            else was <= now
  {
  }

  lemma StaysAhead(s: State, step: Step, p: nat, line: Line)
    requires Enabled(s, step) && p < |Queue(s, line)| && NextPlace(p, step, line).Some?
    ensures var q := NextPlace(p, step, line).value;
            Continues(Queue(s, line), p, Queue(Do(s, step), line), q) && q + (if Serves(step, line) then 1 else 0) <= p
  {
    QueueMoves(s, step, line);
    var was, now := Queue(s, line), Queue(Do(s, step), line);
    hide Do, Enabled, Queue, Continues;
    if Serves(step, line) {
      HeadLeaves(was, p);
    } else if GivesUp(step, line).Some? {
      OneLeaves(was, GivesUp(step, line).value, p);
    } else {
      MoreBehind(was, now, p);
    }
  }

  /** At most the nested cap of background requests is ahead of anybody. */
  lemma FewBackgroundAhead(s: State, p: nat)
    requires Inv(s) && p < |s.global|
    ensures Background(s.global[..p]) + Background(s.held) <= s.backgroundCap
  {
    BackgroundConcat(s.global[..p], s.global[p..]);
    assert s.global == s.global[..p] + s.global[p..];
  }

  /** Grants, queueing and drops only: nobody new arrives and nobody gives up. */
  predicate Serving(steps: seq<Step>) {
    forall i | 0 <= i < |steps| :: steps[i].GrantNested? || steps[i].Enqueue? || steps[i].GrantGlobal? || steps[i].Drop?
  }

  lemma Then(s: State, step: Step, rest: seq<Step>, t: State)
    requires Enabled(s, step) && Leads(Do(s, step), rest, t) && Serving([step]) && Serving(rest)
    ensures Leads(s, [step] + rest, t) && Serving([step] + rest)
    ensures Grants([step] + rest, GlobalLine) == Grants(rest, GlobalLine) + if step.GrantGlobal? then 1 else 0
  {
    assert ([step] + rest)[1..] == rest;
    assert [step][0] == step;
  }

  lemma {:induction false} ThenAll(s: State, a: seq<Step>, t: State, b: seq<Step>, u: State)
    requires Leads(s, a, t) && Leads(t, b, u) && Serving(a) && Serving(b)
    ensures Leads(s, a + b, u) && Serving(a + b)
    decreases |a|
  {
    ServingBoth(a, b);
    hide Serving, Do, Enabled;
    if a == [] {
      assert a + b == b;
    } else {
      assert (a + b)[1..] == a[1..] + b && (a + b)[0] == a[0];
      ThenAll(Do(s, a[0]), a[1..], t, b, u);
    }
  }

  lemma ServingBoth(a: seq<Step>, b: seq<Step>)
    requires Serving(a) && Serving(b)
    ensures Serving(a + b) && (a != [] ==> Serving(a[1..]))
  {
  }

  /** From any state the request at place `p` of the global queue can be served, by the grant
      after its `p` predecessors. */
  lemma {:induction false} GlobalCanBeServed(s: State, p: nat) returns (steps: seq<Step>, t: State)
    requires Inv(s) && p < |s.global|
    ensures Leads(s, steps, t) && Serving(steps) && s.global[p] in t.held && Grants(steps, GlobalLine) == p + 1
    ensures Inv(t) && t.nested == s.nested && t.between == s.between
    decreases p, s.globalFree == 0
  {
    var rest;
    if s.globalFree == 0 {
      Keeps(s, Drop(0));
      rest, t := GlobalCanBeServed(Do(s, Drop(0)), p);
      Then(s, Drop(0), rest, t);
      steps := [Drop(0)] + rest;
    } else {
      Keeps(s, GrantGlobal);
      var u := Do(s, GrantGlobal);
      if p == 0 {
        rest, t := [], u;
        assert u.held[|s.held|] == s.global[0];
      } else {
        rest, t := GlobalCanBeServed(u, p - 1);
      }
      Then(s, GrantGlobal, rest, t);
      steps := [GrantGlobal] + rest;
    }
  }

  lemma {:induction false} BackgroundAt(s: seq<Request>) returns (i: nat)
    requires Background(s) > 0
    ensures i < |s| && s[i].background
  {
    i := |s| - 1;
    if !s[i].background { i := BackgroundAt(s[..i]); }
  }

  /** A nested slot can always be freed, by serving background requests that hold one. */
  lemma {:induction false} NestedCanBeFreed(s: State) returns (steps: seq<Step>, t: State)
    requires Inv(s)
    ensures Leads(s, steps, t) && Serving(steps) && Inv(t) && t.nestedFree > 0 && t.nested == s.nested
    decreases |s.between|
  {
    if s.nestedFree > 0 {
      steps, t := [], s;
    } else if s.between != [] {
      Keeps(s, Enqueue(0));
      var rest;
      rest, t := NestedCanBeFreed(Do(s, Enqueue(0)));
      Then(s, Enqueue(0), rest, t);
      steps := [Enqueue(0)] + rest;
    } else if Background(s.held) > 0 {
      var i := BackgroundAt(s.held);
      steps, t := DropFrees(s, i);
    } else {
      var p := BackgroundAt(s.global);
      var first, u := GlobalCanBeServed(s, p);
      var i :| 0 <= i < |u.held| && u.held[i] == s.global[p];
      var last;
      last, t := DropFrees(u, i);
      ThenAll(s, first, u, last, t);
      steps := first + last;
    }
  }

  lemma DropFrees(s: State, i: nat) returns (steps: seq<Step>, t: State)
    requires Inv(s) && i < |s.held| && s.held[i].background
    ensures Leads(s, steps, t) && Serving(steps) && Inv(t) && t.nestedFree > 0 && t.nested == s.nested
  {
    Keeps(s, Drop(i));
    t := Do(s, Drop(i));
    Then(s, Drop(i), [], t);
    steps := [Drop(i)] + [];
  }

  /** A background request that holds its nested slot queues globally and is served. */
  lemma BetweenCanBeServed(s: State, i: nat) returns (steps: seq<Step>, t: State)
    requires Inv(s) && i < |s.between|
    ensures Leads(s, steps, t) && Serving(steps) && s.between[i] in t.held
  {
    Keeps(s, Enqueue(i));
    var u := Do(s, Enqueue(i));
    assert u.global[|s.global|] == s.between[i];
    var rest;
    rest, t := GlobalCanBeServed(u, |s.global|);
    Then(s, Enqueue(i), rest, t);
    steps := [Enqueue(i)] + rest;
  }

  lemma {:induction false} NestedCanBeServed(s: State, p: nat, r: Request) returns (steps: seq<Step>, t: State)
    requires Inv(s) && p < |s.nested| && s.nested[p] == r
    ensures Leads(s, steps, t) && Serving(steps) && r in t.held
    decreases p
  {
    hide Leads, Inv, Do, Serving, Enabled;
    var first, u := NestedCanBeFreed(s);
    var v := HeadGranted(u);
    var rest;
    if p == 0 {
      rest, t := BetweenCanBeServed(v, |u.between|);
    } else {
      assert v.nested[p - 1] == r;
      rest, t := NestedCanBeServed(v, p - 1, r);
    }
    JustOne();
    Then(u, GrantNested, rest, t);
    ThenAll(s, first, u, [GrantNested] + rest, t);
    steps := first + ([GrantNested] + rest);
  }

  /** From any state the request at place `p` of either queue can be served by grants, queueing
      and drops alone. */
  lemma CanBeServed(s: State, p: nat, line: Line) returns (steps: seq<Step>, t: State)
    requires Inv(s) && p < |Queue(s, line)|
    ensures Leads(s, steps, t) && Serving(steps) && Queue(s, line)[p] in t.held
  {
    if line.GlobalLine? {
      steps, t := GlobalCanBeServed(s, p);
    } else {
      steps, t := NestedCanBeServed(s, p, s.nested[p]);
    }
  }

  /** From every state a new request can arrive and be served, under its own id and class. */
  lemma ArrivesAndIsServed(s: State, id: nat, background: bool) returns (steps: seq<Step>, t: State)
    requires Inv(s)
    ensures Leads(s, [Arrive(id, background)] + steps, t) && Serving(steps) && Request(id, background) in t.held
  {
    var u := Do(s, Arrive(id, background));
    Keeps(s, Arrive(id, background));
    var line := if background then NestedLine else GlobalLine;
    assert Queue(u, line)[|Queue(s, line)|] == Request(id, background);
    steps, t := CanBeServed(u, |Queue(s, line)|, line);
    assert ([Arrive(id, background)] + steps)[1..] == steps;
  }

  // ---- Everybody can leave -------------------------------------------------------------------------

  /** Cancels whoever waits, and drops whoever holds a slot. */
  function Leave(s: State): Step
    requires Waits(s) || s.held != []
  {
    if s.nested != [] then CancelNested(0)
    else if s.between != [] then CancelBetween(0)
    else if s.global != [] then CancelGlobal(0)
    else Drop(0)
  }

  function Crowd(s: State): nat { |s.nested| + |s.between| + |s.global| + |s.held| }

  lemma Leaves(s: State)
    requires Waits(s) || s.held != []
    ensures Enabled(s, Leave(s)) && Crowd(Do(s, Leave(s))) < Crowd(s)
  {
  }

  /** From every state all requests can leave, by cancelling and dropping alone, and every slot of
      both semaphores is free again then. */
  lemma {:induction false} CanEmpty(s: State) returns (steps: seq<Step>, t: State)
    requires Inv(s)
    ensures Leads(s, steps, t) && t.nested == t.between == t.global == t.held == []
    ensures t.globalFree == t.cap == s.cap && t.nestedFree == t.backgroundCap == s.backgroundCap
    decreases Crowd(s)
  {
    if Waits(s) || s.held != [] {
      var step := Leave(s);
      Leaves(s);
      Keeps(s, step);
      SameCaps(s, step);
      hide Do, Enabled, Inv, Leave;
      var rest;
      rest, t := CanEmpty(Do(s, step));
      assert ([step] + rest)[1..] == rest;
      steps := [step] + rest;
    } else {
      steps, t := [], s;
    }
  }

  lemma SameCaps(s: State, step: Step)
    requires Enabled(s, step)
    ensures Do(s, step).cap == s.cap && Do(s, step).backgroundCap == s.backgroundCap
  {
  }

  lemma JustOne()
    ensures Serving([GrantNested])
  {
  }

  lemma HeadGranted(s: State) returns (t: State)
    requires Inv(s) && s.nested != [] && s.nestedFree > 0
    ensures Enabled(s, GrantNested) && t == Do(s, GrantNested) && Inv(t) && t.nested == s.nested[1..]
    ensures |t.between| == |s.between| + 1 && t.between[|s.between|] == s.nested[0]
  {
    Keeps(s, GrantNested);
    t := Do(s, GrantNested);
  }
}
