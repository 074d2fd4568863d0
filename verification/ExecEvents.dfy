/** The frames of one exec conversation: the forwarders, the degradation watcher and the main
    task all send into one channel, and a single writer puts the frames on the wire in that
    order. */
module ExecEvents {
  import opened Wrappers
  import opened Bytes

  const READ_BUF_BYTES: nat := 8 * 1024

  datatype Event =
    | Started
    | Stdout(bytes: Bytes)
    | Stderr(bytes: Bytes)
    | Degraded
    | Exit(code: Option<int>)
    | Refused

  /** The bytes the frames carry for one stream. */
  function Outs(log: seq<Event>): Bytes {
    if log == [] then []
    else if log[|log| - 1].Stdout? then Outs(log[..|log| - 1]) + log[|log| - 1].bytes
    else Outs(log[..|log| - 1])
  }

  function Errs(log: seq<Event>): Bytes {
    if log == [] then []
    else if log[|log| - 1].Stderr? then Errs(log[..|log| - 1]) + log[|log| - 1].bytes
    else Errs(log[..|log| - 1])
  }

  function Warnings(log: seq<Event>): nat {
    if log == [] then 0 else Warnings(log[..|log| - 1]) + if log[|log| - 1].Degraded? then 1 else 0
  }

  lemma Snoc(log: seq<Event>, e: Event)
    ensures Outs(log + [e]) == if e.Stdout? then Outs(log) + e.bytes else Outs(log)
    ensures Errs(log + [e]) == if e.Stderr? then Errs(log) + e.bytes else Errs(log)
    ensures Warnings(log + [e]) == Warnings(log) + if e.Degraded? then 1 else 0
  {
    assert (log + [e])[..|log|] == log;
  }

  predicate IsBody(e: Event) { e.Stdout? || e.Stderr? || e.Degraded? }

  /** Started first and once, then output with at most one warning. */
  ghost predicate Opened(log: seq<Event>) {
    && |log| > 0 && log[0] == Started && Warnings(log) <= 1
    && forall i | 1 <= i < |log| :: IsBody(log[i])
  }

  /** An opened conversation closed by exactly one terminal frame, its last. */
  ghost predicate Conversation(log: seq<Event>) {
    && |log| > 1 && (log[|log| - 1].Exit? || log[|log| - 1].Refused?)
    && Opened(log[..|log| - 1])
  }

  // ---- A command that this connection runs --------------------------------------------------

  datatype Watcher = Watching | Claimed | Gone

  datatype Main = Waiting | Reaped | OutJoined | ErrJoined | Aborted | Checked | Exited | TimedOut

  /** `marked` is the degraded file, `warned` the flag the watcher and the main task share. */
  datatype State = State(durable: bool, log: seq<Event>, outLeft: Bytes, errLeft: Bytes, outOpen: bool, errOpen: bool,
                         marked: bool, warned: bool, watcher: Watcher, main: Main, code: Option<int>)

  datatype Step =
    | ForwardOut(n: nat)
    | ForwardErr(n: nat)
    | CloseOut
    | CloseErr
    | Mark
    | Claim
    | Warn
    | Leave
    | Reap(status: Option<int>)
    | JoinOut
    | JoinErr
    | Abort
    | Recheck
    | SendExit
    | TimeOut

  predicate Enabled(s: State, step: Step) {
    match step
    case ForwardOut(n) => s.outOpen && 0 < n <= |s.outLeft| && n <= READ_BUF_BYTES
    case ForwardErr(n) => s.errOpen && 0 < n <= |s.errLeft| && n <= READ_BUF_BYTES
    case CloseOut => s.outOpen && s.outLeft == []
    case CloseErr => s.errOpen && s.errLeft == []
    case Mark => s.durable
    case Claim => s.watcher == Watching && s.marked
    case Warn => s.watcher == Claimed
    case Leave => s.watcher == Watching
    case Reap(_) => s.main == Waiting
    case JoinOut => s.main == Reaped && !s.outOpen
    case JoinErr => s.main == OutJoined && !s.errOpen
    case Abort => s.durable && s.main == ErrJoined
    case Recheck => s.main == Aborted
    case SendExit => s.main == Checked || (!s.durable && s.main == ErrJoined)
    case TimeOut => !s.durable && s.main == Waiting
  }

  function Send(s: State, e: Event): State {
    s.(log := s.log + [e])
  }

  function Do(s: State, step: Step): State
    requires Enabled(s, step)
  {
    match step
    case ForwardOut(n) => Send(s, Stdout(s.outLeft[..n])).(outLeft := s.outLeft[n..])
    case ForwardErr(n) => Send(s, Stderr(s.errLeft[..n])).(errLeft := s.errLeft[n..])
    case CloseOut => s.(outOpen := false)
    case CloseErr => s.(errOpen := false)
    case Mark => s.(marked := true)
    case Claim => if s.warned then s.(watcher := Gone) else s.(watcher := Claimed, warned := true)
    case Warn => Send(s, Degraded).(watcher := Gone)
    case Leave => s.(watcher := Gone)
    case Reap(status) => s.(main := Reaped, code := status)
    case JoinOut => s.(main := OutJoined)
    case JoinErr => s.(main := ErrJoined)
    case Abort => s.(main := Aborted, watcher := Gone)
    case Recheck =>
      if s.marked && !s.warned then Send(s, Degraded).(main := Checked, warned := true) else s.(main := Checked)
    case SendExit => Send(s, Exit(s.code)).(main := Exited)
    case TimeOut => Send(s, Exit(None)).(main := TimedOut)
  }

  /** A durable start watches for the marker; a live start has already warned. */
  function Start(durable: bool, out: Bytes, err: Bytes): State {
    State(durable, if durable then [Started] else [Started, Degraded], out, err, true, true, false, !durable,
          if durable then Watching else Gone, Waiting, None)
  }

  /** Every byte of the two streams is on the wire or still to come, in order. */
  ghost predicate Carries(s: State, out: Bytes, err: Bytes) {
    Outs(s.log) + s.outLeft == out && Errs(s.log) + s.errLeft == err
  }

  ghost predicate Shaped(s: State) {
    && (s.outOpen || s.outLeft == []) && (s.errOpen || s.errLeft == [])
    && (s.main == OutJoined || s.main == ErrJoined || s.main == Aborted || s.main == Checked || s.main == Exited ==>
          !s.outOpen)
    && (s.main == ErrJoined || s.main == Aborted || s.main == Checked || s.main == Exited ==> !s.errOpen)
    && (s.main == Aborted || s.main == Checked || s.main == Exited ==> s.watcher == Gone)
    && (!s.durable ==> s.watcher == Gone && s.warned)
    && (s.watcher == Claimed ==> s.warned && Warnings(s.log) == 0)
    && (!s.warned ==> Warnings(s.log) == 0)
    && (s.warned && s.watcher != Claimed && !PastAbort(s.main) ==> Warnings(s.log) == 1)
    && (s.durable && s.warned ==> s.marked)
  }

  predicate PastAbort(main: Main) { main == Aborted || main == Checked || main == Exited }

  ghost predicate Inv(s: State, out: Bytes, err: Bytes) {
    && Carries(s, out, err) && Shaped(s)
    && (s.main == Exited ==> Conversation(s.log) && s.log[|s.log| - 1] == Exit(s.code))
    && (s.main != Exited && s.main != TimedOut ==> Opened(s.log))
  }

  lemma OpenedSnoc(log: seq<Event>, e: Event)
    requires Opened(log)
    ensures IsBody(e) && (e.Degraded? ==> Warnings(log) == 0) ==> Opened(log + [e])
    ensures e.Exit? || e.Refused? ==> Conversation(log + [e])
  {
    Snoc(log, e);
    assert (log + [e])[..|log|] == log;
  }

  /** A step sends at most one frame. */
  function Sent(s: State, step: Step): Option<Event>
    requires Enabled(s, step)
  {
    match step
    case ForwardOut(n) => Some(Stdout(s.outLeft[..n]))
    case ForwardErr(n) => Some(Stderr(s.errLeft[..n]))
    case Warn => Some(Degraded)
    case Recheck => if s.marked && !s.warned then Some(Degraded) else None
    case SendExit => Some(Exit(s.code))
    case TimeOut => Some(Exit(None))
    case _ => None
  }

  lemma Sends(s: State, step: Step)
    requires Enabled(s, step)
    ensures Do(s, step).log == match Sent(s, step) case None => s.log case Some(e) => s.log + [e]
    ensures Sent(s, step).Some? ==>
              var e, log := Sent(s, step).value, s.log + [Sent(s, step).value];
              && Outs(log) == (if e.Stdout? then Outs(s.log) + e.bytes else Outs(s.log))
              && Errs(log) == (if e.Stderr? then Errs(s.log) + e.bytes else Errs(s.log))
              && Warnings(log) == Warnings(s.log) + if e.Degraded? then 1 else 0
  {
    if Sent(s, step).Some? { Snoc(s.log, Sent(s, step).value); }
  }

  lemma Moves(sent: Bytes, left: Bytes, n: nat)
    requires n <= |left|
    ensures sent + left[..n] + left[n..] == sent + left
  {
    assert left[..n] + left[n..] == left;
    assert (sent + left[..n]) + left[n..] == sent + (left[..n] + left[n..]);
  }

  lemma CarriesOn(s: State, step: Step, out: Bytes, err: Bytes)
    requires Carries(s, out, err) && Enabled(s, step)
    ensures Carries(Do(s, step), out, err)
  {
    Sends(s, step);
    hide Outs, Errs, Warnings;
    if step.ForwardOut? { Moves(Outs(s.log), s.outLeft, step.n); }
    if step.ForwardErr? { Moves(Errs(s.log), s.errLeft, step.n); }
  }

  lemma ShapedOn(s: State, step: Step)
    requires Shaped(s) && Enabled(s, step)
    ensures Shaped(Do(s, step))
  {
    Sends(s, step);
    hide Outs, Errs, Warnings;
  }

  lemma Keeps(s: State, step: Step, out: Bytes, err: Bytes)
    requires Inv(s, out, err) && Enabled(s, step)
    ensures Inv(Do(s, step), out, err)
  {
    CarriesOn(s, step, out, err);
    ShapedOn(s, step);
    Sends(s, step);
    if Opened(s.log) && Sent(s, step).Some? { OpenedSnoc(s.log, Sent(s, step).value); }
    hide Outs, Errs, Warnings, Opened, Conversation, Carries;
  }

  ghost predicate Leads(s: State, steps: seq<Step>, t: State)
    decreases |steps|
  {
    if steps == [] then t == s
    else Enabled(s, steps[0]) && Leads(Do(s, steps[0]), steps[1..], t)
  }

  lemma {:induction false} LeadsKeeps(s: State, steps: seq<Step>, t: State, out: Bytes, err: Bytes)
    requires Inv(s, out, err) && Leads(s, steps, t)
    ensures Inv(t, out, err)
    decreases |steps|
  {
    if steps != [] {
      Keeps(s, steps[0], out, err);
      LeadsKeeps(Do(s, steps[0]), steps[1..], t, out, err);
    }
  }

  lemma StartsLog()
    ensures Opened([Started]) && Outs([Started]) == [] && Errs([Started]) == [] && Warnings([Started]) == 0
    ensures Opened([Started, Degraded]) && Outs([Started, Degraded]) == [] && Errs([Started, Degraded]) == []
    ensures Warnings([Started, Degraded]) == 1
  {
    Snoc([], Started);
    assert [] + [Started] == [Started];
    Snoc([Started], Degraded);
    assert [Started] + [Degraded] == [Started, Degraded];
  }

  lemma Starts(durable: bool, out: Bytes, err: Bytes)
    ensures Inv(Start(durable, out, err), out, err)
  {
    StartsLog();
    hide Outs, Errs, Warnings, Opened, Conversation;
    assert [] + out == out && [] + err == err;
  }

  /** The statuses the command was reaped with, in the order of the run. */
  function Statuses(steps: seq<Step>): seq<Option<int>> {
    if steps == [] then []
    else if steps[0].Reap? then [steps[0].status] + Statuses(steps[1..])
    else Statuses(steps[1..])
  }

  /** Before the reap the main task waits or has timed out. */
  predicate Unreaped(main: Main) { main == Waiting || main == TimedOut }

  /** Only a reap ends the wait, and only it sets the status. */
  lemma ReapStep(s: State, step: Step)
    requires Enabled(s, step)
    ensures var u := Do(s, step);
            if step.Reap? then Unreaped(s.main) && !Unreaped(u.main) && u.code == step.status
            else Unreaped(u.main) == Unreaped(s.main) && u.code == s.code
  {
  }

  /** Once reaped, the status stays, and the exit frame carries it. */
  lemma {:induction false} ReapedOnce(s: State, steps: seq<Step>, t: State)
    requires Leads(s, steps, t) && !Unreaped(s.main)
    ensures Statuses(steps) == [] && !Unreaped(t.main) && t.code == s.code
    decreases |steps|
  {
    if steps != [] {
      ReapStep(s, steps[0]);
      hide Do, Enabled, Unreaped;
      ReapedOnce(Do(s, steps[0]), steps[1..], t);
    }
  }

  lemma {:induction false} ReapsOnce(s: State, steps: seq<Step>, t: State)
    requires Leads(s, steps, t) && Unreaped(s.main)
    ensures Unreaped(t.main) ==> Statuses(steps) == []
    ensures !Unreaped(t.main) ==> Statuses(steps) == [t.code]
    decreases |steps|
  {
    if steps != [] {
      ReapStep(s, steps[0]);
      hide Do, Enabled, Unreaped;
      var u := Do(s, steps[0]);
      if steps[0].Reap? {
        ReapedOnce(u, steps[1..], t);
      } else {
        ReapsOnce(u, steps[1..], t);
      }
    }
  }

  /** Whatever the interleaving, a run that sends its exit reaped the command once and is a
      whole conversation: all output of both streams, in order, then the status it was reaped
      with. */
  lemma RunConverses(durable: bool, out: Bytes, err: Bytes, steps: seq<Step>, t: State)
    requires Leads(Start(durable, out, err), steps, t) && t.main == Exited
    ensures Conversation(t.log) && |Statuses(steps)| == 1 && t.log[|t.log| - 1] == Exit(Statuses(steps)[0])
    ensures Outs(t.log) == out && Errs(t.log) == err
  {
    Starts(durable, out, err);
    LeadsKeeps(Start(durable, out, err), steps, t, out, err);
    ReapsOnce(Start(durable, out, err), steps, t);
  }

  // ---- Every run can be finished ------------------------------------------------------------------------

  ghost predicate CanExit(s: State, status: Option<int>) {
    exists steps, t :: ExitRun(s, steps, t, status)
  }

  ghost predicate ExitRun(s: State, steps: seq<Step>, t: State, status: Option<int>) {
    && Leads(s, steps, t) && t.main == Exited && t.log != [] && t.log[|t.log| - 1] == Exit(status)
    && Statuses(steps) == (if Unreaped(s.main) then [status] else [])
  }

  lemma ExitFirst(s: State, step: Step, status: Option<int>)
    requires Enabled(s, step) && CanExit(Do(s, step), status) && (step.Reap? ==> step.status == status)
    requires step.Reap? <==> Unreaped(s.main) != Unreaped(Do(s, step).main)
    ensures CanExit(s, status)
  {
    var steps, t :| ExitRun(Do(s, step), steps, t, status);
    hide Do, Enabled;
    LeadsFirst(s, step, steps, t);
    assert ([step] + steps)[1..] == steps;
    assert ExitRun(s, [step] + steps, t, status);
  }

  /** From every state a run can reach, timeout aside, the rest of the output can be forwarded
      and the command's status told, whatever it is. */
  lemma {:induction false} NeverStuck(s: State, status: Option<int>, out: Bytes, err: Bytes)
    requires Inv(s, out, err) && Unended(s, status)
    ensures CanExit(s, status)
    decreases Rank(s)
  {
    var step := NextStep(s, status);
    NextGoes(s, status);
    if step == SendExit {
      ExitsNow(s, status);
    } else {
      Keeps(s, step, out, err);
      hide CanExit, Inv, Do, Enabled, NextStep, Rank, Unended;
      NeverStuck(Do(s, step), status, out, err);
      ExitFirst(s, step, status);
    }
  }

  /** Not over yet, and the status is still open or is this one. */
  predicate Unended(s: State, status: Option<int>) {
    s.main != TimedOut && s.main != Exited && (!Unreaped(s.main) ==> status == s.code)
  }

  function Rank(s: State): nat {
    |s.outLeft| + |s.errLeft| + (if s.outOpen then 1 else 0) + (if s.errOpen then 1 else 0) + Left(s.main)
  }

  /** The next step is possible and brings the end nearer. */
  ghost predicate Goes(s: State, step: Step, status: Option<int>) {
    && Enabled(s, step) && (step == SendExit ==> s.code == status)
    && (step != SendExit ==>
          && Unended(Do(s, step), status) && Rank(Do(s, step)) < Rank(s)
          && (step.Reap? ==> step.status == status)
          && (step.Reap? <==> Unreaped(s.main) != Unreaped(Do(s, step).main)))
  }

  lemma NextGoes(s: State, status: Option<int>)
    requires Shaped(s) && Unended(s, status)
    ensures Goes(s, NextStep(s, status), status)
  {
    if s.outOpen || s.errOpen { StreamGoes(s, status); } else { MainGoes(s, status); }
    hide Goes, Shaped;
  }

  lemma StreamGoes(s: State, status: Option<int>)
    requires Shaped(s) && Unended(s, status) && (s.outOpen || s.errOpen)
    ensures Goes(s, NextStep(s, status), status)
  {
    hide Warnings, Left, Unreaped, Shaped;
    if s.outOpen && s.outLeft != [] {
      assert Do(s, ForwardOut(1)) == Send(s, Stdout(s.outLeft[..1])).(outLeft := s.outLeft[1..]);
    } else if s.errOpen && s.errLeft != [] {
      assert Do(s, ForwardErr(1)) == Send(s, Stderr(s.errLeft[..1])).(errLeft := s.errLeft[1..]);
    } else if s.outOpen {
      assert Do(s, CloseOut) == s.(outOpen := false);
    } else {
      assert Do(s, CloseErr) == s.(errOpen := false);
    }
  }

  lemma MainGoes(s: State, status: Option<int>)
    requires Shaped(s) && Unended(s, status) && !s.outOpen && !s.errOpen
    ensures Goes(s, NextStep(s, status), status)
  {
    hide Warnings;
  }

  function Left(main: Main): nat {
    match main
    case Waiting => 5
    case Reaped => 4
    case OutJoined => 3
    case ErrJoined => 2
    case Aborted => 1
    case _ => 0
  }

  /** What is done next: forward, close, then on to the exit. */
  function NextStep(s: State, status: Option<int>): Step {
    if s.outOpen && s.outLeft != [] then ForwardOut(1)
    else if s.errOpen && s.errLeft != [] then ForwardErr(1)
    else if s.outOpen then CloseOut
    else if s.errOpen then CloseErr
    else
      match s.main
      case Waiting => Reap(status)
      case Reaped => JoinOut
      case OutJoined => JoinErr
      case ErrJoined => if s.durable then Abort else SendExit
      case Aborted => Recheck
      case _ => SendExit
  }

  lemma ExitsNow(s: State, status: Option<int>)
    requires Enabled(s, SendExit) && s.code == status
    ensures CanExit(s, status)
  {
    var t := Do(s, SendExit);
    LeadsOne(s, SendExit, t);
    assert [SendExit][1..] == [];
    assert ExitRun(s, [SendExit], t, status);
  }

  // ---- The two places where the frames fall short ----------------------------------------------

  /** After the timeout's exit frame only the forwarders are left. */
  lemma {:induction false} Straggles(u: State, steps: seq<Step>, t: State)
    requires !u.durable && u.main == TimedOut && u.watcher == Gone && Leads(u, steps, t)
    ensures t.log == u.log ==> t.outLeft == u.outLeft && t.errLeft == u.errLeft
    ensures t.log != u.log ==> |t.log| > |u.log| && IsBody(t.log[|t.log| - 1])
    ensures u.outLeft == [] && u.errLeft == [] ==> t.log == u.log
    decreases |steps|
  {
    if steps != [] {
      var v := Do(u, steps[0]);
      Straggles(v, steps[1..], t);
      if v.log != u.log { assert IsBody(v.log[|v.log| - 1]); }
    }
  }

  /** A live exec that times out ends in a whole conversation exactly when no output was
      left to forward at that moment. */
  lemma TimeOutConversesIff(s: State, steps: seq<Step>, t: State, out: Bytes, err: Bytes)
    requires Inv(s, out, err) && Enabled(s, TimeOut) && Leads(Do(s, TimeOut), steps, t) && !t.outOpen && !t.errOpen
    ensures Conversation(t.log) <==> s.outLeft == [] && s.errLeft == []
  {
    var u := Do(s, TimeOut);
    Straggles(u, steps, t);
    Keeps(s, TimeOut, out, err);
    LeadsKeeps(u, steps, t, out, err);
    OpenedSnoc(s.log, Exit(None));
  }

  /** The abort of the run meets the watcher between its claim and its send. */
  ghost predicate AbortsClaim(s: State, steps: seq<Step>)
    decreases |steps|
  {
    steps != [] && Enabled(s, steps[0])
    && ((steps[0].Abort? && s.watcher == Claimed) || AbortsClaim(Do(s, steps[0]), steps[1..]))
  }

  /** The degraded marker is there by the run's recheck. */
  ghost predicate MarkedByRecheck(s: State, steps: seq<Step>)
    decreases |steps|
  {
    steps != [] && Enabled(s, steps[0])
    && ((steps[0].Recheck? && s.marked) || MarkedByRecheck(Do(s, steps[0]), steps[1..]))
  }

  /** Once the recheck is past no step warns. */
  lemma {:induction false} CheckedIsQuiet(s: State, steps: seq<Step>, t: State, out: Bytes, err: Bytes)
    requires Inv(s, out, err) && s.durable && (s.main == Checked || s.main == Exited) && Leads(s, steps, t)
    ensures Warnings(t.log) == Warnings(s.log) && !AbortsClaim(s, steps) && !MarkedByRecheck(s, steps)
    decreases |steps|
  {
    if steps != [] {
      Keeps(s, steps[0], out, err);
      Sends(s, steps[0]);
      CheckedIsQuiet(Do(s, steps[0]), steps[1..], t, out, err);
    }
  }

  /** Between abort and recheck only the marker can still come. */
  lemma {:induction false} AbortedWarns(s: State, steps: seq<Step>, t: State, out: Bytes, err: Bytes)
    requires Inv(s, out, err) && s.durable && s.main == Aborted && Leads(s, steps, t) && t.main == Exited
    ensures !AbortsClaim(s, steps) && (s.marked ==> MarkedByRecheck(s, steps))
    ensures Warnings(t.log) == if MarkedByRecheck(s, steps) && !s.warned then 1 else Warnings(s.log)
    decreases |steps|
  {
    Keeps(s, steps[0], out, err);
    Sends(s, steps[0]);
    var u := Do(s, steps[0]);
    if steps[0].Recheck? {
      CheckedIsQuiet(u, steps[1..], t, out, err);
    } else {
      AbortedWarns(u, steps[1..], t, out, err);
    }
  }

  /** A durable run before its abort stays there until the abort, which changes nothing but
      the watcher. */
  lemma StaysBefore(s: State, step: Step)
    requires s.durable && !PastAbort(s.main) && s.main != TimedOut && Enabled(s, step)
    ensures var u := Do(s, step);
            if step.Abort? then u == s.(main := Aborted, watcher := Gone)
            else !step.Recheck? && u.durable && !PastAbort(u.main) && u.main != TimedOut
  {
  }

  lemma {:induction false} WarnsFrom(s: State, steps: seq<Step>, t: State, out: Bytes, err: Bytes)
    requires Inv(s, out, err) && s.durable && !PastAbort(s.main)
    requires s.main != TimedOut && Leads(s, steps, t) && t.main == Exited
    ensures Warnings(t.log) == if MarkedByRecheck(s, steps) && !AbortsClaim(s, steps) then 1 else 0
    decreases |steps|
  {
    Keeps(s, steps[0], out, err);
    StaysBefore(s, steps[0]);
    var u := Do(s, steps[0]);
    if steps[0].Abort? {
      AbortedWarns(u, steps[1..], t, out, err);
      hide Carries, Opened, Outs, Errs, Do, Leads;
    } else {
      hide Inv, Do, Enabled;
      WarnsFrom(u, steps[1..], t, out, err);
    }
  }

  /** Over every durable run that sends its exit: the record's degradation is told, once,
      exactly when its marker is there by the recheck and the abort did not meet the watcher
      between its claim and its send. */
  lemma WarnedIff(out: Bytes, err: Bytes, steps: seq<Step>, t: State)
    requires Leads(Start(true, out, err), steps, t) && t.main == Exited
    ensures Warnings(t.log) <= 1
    ensures Warnings(t.log) == 1
            <==> MarkedByRecheck(Start(true, out, err), steps) && !AbortsClaim(Start(true, out, err), steps)
  {
    Starts(true, out, err);
    WarnsFrom(Start(true, out, err), steps, t, out, err);
  }

  lemma LeadsFirst(s: State, step: Step, rest: seq<Step>, t: State)
    requires Enabled(s, step) && Leads(Do(s, step), rest, t)
    ensures Leads(s, [step] + rest, t)
  {
    assert ([step] + rest)[1..] == rest;
  }

  /** One byte still in the pipe when the timeout fires trails the exit frame. */
  lemma TimeOutTrails(b: byte) returns (t: State)
    ensures Leads(Start(false, [b], []), [TimeOut] + [ForwardOut(1), CloseOut, CloseErr], t)
    ensures t.log == [Started, Degraded, Exit(None), Stdout([b])] && !Conversation(t.log)
  {
    assert [b][..1] == [b];
    var s := Start(false, [b], []);
    var s1 := Do(s, TimeOut);
    var s2 := Do(s1, ForwardOut(1));
    var s3 := Do(s2, CloseOut);
    t := Do(s3, CloseErr);
    LeadsFirst(s3, CloseErr, [], t);
    LeadsFirst(s2, CloseOut, [CloseErr], t);
    LeadsFirst(s1, ForwardOut(1), [CloseOut, CloseErr], t);
    LeadsFirst(s, TimeOut, [ForwardOut(1), CloseOut, CloseErr], t);
    Starts(false, [b], []);
    TimeOutConversesIff(s, [ForwardOut(1), CloseOut, CloseErr], t, [b], []);
  }

  /** A degraded command that ends at once, with its watcher about to warn. */
  function Claiming(): seq<Step> {
    [Mark] + ([Claim] + ([Reap(None)] + ([CloseOut] + [CloseErr])))
  }

  function Joining(): seq<Step> {
    [JoinOut] + ([JoinErr] + ([Abort] + ([Recheck] + [SendExit])))
  }

  function AboutToWarn(main: Main): State {
    State(true, [Started], [], [], false, false, true, true, Claimed, main, None)
  }

  lemma Claims()
    ensures Leads(Start(true, [], []), Claiming(), AboutToWarn(Reaped))
  {
    var t := AboutToWarn(Reaped);
    LeadsOne(t.(errOpen := true), CloseErr, t);
    LeadsFirst(t.(outOpen := true, errOpen := true), CloseOut, [CloseErr], t);
    LeadsFirst(t.(outOpen := true, errOpen := true, main := Waiting), Reap(None), [CloseOut] + [CloseErr], t);
    hide Leads;
    LeadsFirst(Start(true, [], []).(marked := true), Claim, [Reap(None)] + ([CloseOut] + [CloseErr]), t);
    LeadsFirst(Start(true, [], []), Mark, [Claim] + ([Reap(None)] + ([CloseOut] + [CloseErr])), t);
  }

  lemma LeadsOne(s: State, step: Step, t: State)
    requires Enabled(s, step) && t == Do(s, step)
    ensures Leads(s, [step], t)
  {
    assert [step] == [step] + [];
    LeadsFirst(s, step, [], t);
  }

  lemma Joins() returns (t: State)
    ensures Leads(AboutToWarn(Reaped), Joining(), t)
    ensures t.main == Exited && t.marked && t.log == [Started] + [Exit(None)]
  {
    var gone := AboutToWarn(Aborted).(watcher := Gone);
    t := Send(gone, Exit(None)).(main := Exited);
    LeadsOne(gone.(main := Checked), SendExit, t);
    LeadsFirst(gone, Recheck, [SendExit], t);
    hide Leads;
    LeadsFirst(AboutToWarn(ErrJoined), Abort, [Recheck] + [SendExit], t);
    LeadsFirst(AboutToWarn(OutJoined), JoinErr, [Abort] + ([Recheck] + [SendExit]), t);
    LeadsFirst(AboutToWarn(Reaped), JoinOut, [JoinErr] + ([Abort] + ([Recheck] + [SendExit])), t);
  }

  lemma {:induction false} LeadsOn(s: State, a: seq<Step>, t: State, b: seq<Step>, u: State)
    requires Leads(s, a, t) && Leads(t, b, u)
    ensures Leads(s, a + b, u)
    decreases |a|
  {
    if a == [] {
      assert a + b == b;
    } else {
      LeadsOn(Do(s, a[0]), a[1..], t, b, u);
      assert (a + b)[1..] == a[1..] + b;
    }
  }

  /** A watcher aborted between claim and send: the record is degraded and nobody is told. */
  lemma WarningLost() returns (t: State)
    ensures Leads(Start(true, [], []), Claiming() + Joining(), t)
    ensures t.main == Exited && t.marked && Warnings(t.log) == 0
  {
    Claims();
    t := Joins();
    hide Leads;
    LeadsOn(Start(true, [], []), Claiming(), AboutToWarn(Reaped), Joining(), t);
    StartsLog();
    Snoc([Started], Exit(None));
  }

  // ---- Every path of a request --------------------------------------------------------------------

  /** How an attach ends. */
  datatype Ending = ExitedWith(code: Option<int>) | Mismatched | WasDegraded | DiedUnmarked | Detached

  function Frames(ending: Ending, message: Bytes): seq<Event> {
    match ending
    case ExitedWith(code) => [Exit(code)]
    case Mismatched => [Refused]
    case WasDegraded => [Degraded, Stderr(message), Exit(None)]
    case DiedUnmarked => [Stderr(message), Exit(None)]
    case Detached => []
  }

  datatype Path =
    | Rejected(message: Bytes)
    | Attached(replay: seq<Event>, ending: Ending, message: Bytes)
    | VacantReplay
    | JournalMissing
    | Ran(durable: bool, out: Bytes, err: Bytes, steps: seq<Step>, last: State)

  predicate IsOutput(e: Event) { e.Stdout? || e.Stderr? }

  /** The paths that end without an I/O error and without a live timeout. */
  ghost predicate Served(path: Path) {
    match path
    case Attached(replay, ending, _) => !ending.Detached? && forall i | 0 <= i < |replay| :: IsOutput(replay[i])
    case Ran(durable, out, err, steps, last) => Leads(Start(durable, out, err), steps, last) && last.main == Exited
    case _ => true
  }

  function Wire(path: Path): seq<Event> {
    match path
    case Rejected(message) => [Started] + [Stderr(message)] + [Exit(None)]
    case Attached(replay, ending, message) => [Started] + replay + Frames(ending, message)
    case VacantReplay => [Started] + [Refused]
    case JournalMissing => [Started] + [Refused]
    case Ran(_, _, _, _, last) => last.log
  }

  /** The message an ending adds to stderr. */
  function Closing(ending: Ending, message: Bytes): Bytes {
    if ending.WasDegraded? || ending.DiedUnmarked? then message else []
  }

  /** What an ending's last frame is. */
  ghost predicate Closes(ending: Ending, last: Event) {
    match ending
    case ExitedWith(code) => last == Exit(code)
    case Mismatched => last == Refused
    case _ => last == Exit(None)
  }

  /** The frames of an attach: Started, then exactly the replay, then how it ended. */
  ghost predicate Relays(wire: seq<Event>, replay: seq<Event>, ending: Ending, message: Bytes) {
    && |wire| > |replay| && wire[0] == Started && wire[1..1 + |replay|] == replay
    && Outs(wire) == Outs(replay) && Errs(wire) == Errs(replay) + Closing(ending, message)
    && Warnings(wire) == (if ending.WasDegraded? then 1 else 0)
    && (if ending.Detached? then |wire| == 1 + |replay| else Closes(ending, wire[|wire| - 1]))
  }

  /** What the frames of a path tell the caller. */
  ghost predicate Tells(path: Path, wire: seq<Event>) {
    match path
    case Rejected(message) => Outs(wire) == [] && Errs(wire) == message && Ends(wire, Exit(None))
    case Attached(replay, ending, message) => Relays(wire, replay, ending, message)
    case VacantReplay => Outs(wire) == [] && Errs(wire) == [] && Ends(wire, Refused)
    case JournalMissing => Outs(wire) == [] && Errs(wire) == [] && Ends(wire, Refused)
    case Ran(_, out, err, steps, _) =>
      && Outs(wire) == out && Errs(wire) == err
      && |Statuses(steps)| == 1 && Ends(wire, Exit(Statuses(steps)[0]))
  }

  predicate Ends(wire: seq<Event>, last: Event) { wire != [] && wire[|wire| - 1] == last }

  lemma NothingTold()
    ensures Outs([]) == [] && Errs([]) == [] && Outs([Started]) == [] && Errs([Started]) == []
    ensures Warnings([Started]) == 0
  {
    StartsLog();
  }

  lemma StartedOn(init: seq<Event>, e: Event)
    requires IsOutput(e) && Outs([Started] + init) == Outs(init) && Errs([Started] + init) == Errs(init)
    requires Warnings([Started] + init) == 0
    ensures var replay := init + [e];
            && Outs([Started] + replay) == Outs(replay) && Errs([Started] + replay) == Errs(replay)
            && Warnings([Started] + replay) == 0
  {
    Snoc(init, e);
    Snoc([Started] + init, e);
    assert [Started] + (init + [e]) == ([Started] + init) + [e];
    hide Outs, Errs, Warnings;
  }

  lemma {:induction false} AfterStarted(replay: seq<Event>)
    requires forall i | 0 <= i < |replay| :: IsOutput(replay[i])
    ensures Outs([Started] + replay) == Outs(replay) && Errs([Started] + replay) == Errs(replay)
    ensures Warnings([Started] + replay) == 0
  {
    hide Outs, Errs, Warnings;
    if replay == [] {
      NothingTold();
      assert [Started] + replay == [Started];
    } else {
      var init, e := replay[..|replay| - 1], replay[|replay| - 1];
      AfterStarted(init);
      StartedOn(init, e);
      assert replay == init + [e];
    }
  }

  lemma FramesTell(log: seq<Event>, ending: Ending, message: Bytes)
    ensures var wire := log + Frames(ending, message);
            && Outs(wire) == Outs(log) && Errs(wire) == Errs(log) + Closing(ending, message)
            && Warnings(wire) == Warnings(log) + (if ending.WasDegraded? then 1 else 0)
            && (!ending.Detached? ==> wire != [] && Closes(ending, wire[|wire| - 1]))
  {
    hide Outs, Errs, Warnings;
    match ending
    case ExitedWith(code) => Snoc(log, Exit(code));
    case Mismatched => Snoc(log, Refused);
    case WasDegraded =>
      Snoc(log, Degraded);
      Snoc(log + [Degraded], Stderr(message));
      Snoc(log + [Degraded] + [Stderr(message)], Exit(None));
      assert log + Frames(ending, message) == log + [Degraded] + [Stderr(message)] + [Exit(None)];
    case DiedUnmarked =>
      Snoc(log, Stderr(message));
      Snoc(log + [Stderr(message)], Exit(None));
      assert log + Frames(ending, message) == log + [Stderr(message)] + [Exit(None)];
    case Detached => assert log + [] == log;
  }

  /** The wire of an attach relays its replay, however it ends. */
  lemma AttachedRelays(replay: seq<Event>, ending: Ending, message: Bytes)
    requires forall i | 0 <= i < |replay| :: IsOutput(replay[i])
    ensures Relays(Wire(Attached(replay, ending, message)), replay, ending, message)
  {
    var log := [Started] + replay;
    AfterStarted(replay);
    FramesTell(log, ending, message);
    hide Outs, Errs, Warnings, Closes;
    var wire := log + Frames(ending, message);
    assert wire[1..1 + |replay|] == replay && wire[0] == Started;
  }

  lemma {:induction false} OutputOpened(replay: seq<Event>)
    requires forall i | 0 <= i < |replay| :: IsOutput(replay[i])
    ensures Opened([Started] + replay) && Warnings([Started] + replay) == 0
  {
    if replay == [] {
      Snoc([], Started);
      assert [Started] + replay == [] + [Started];
    } else {
      var init, e := replay[..|replay| - 1], replay[|replay| - 1];
      OutputOpened(init);
      Snoc([Started] + init, e);
      OpenedSnoc([Started] + init, e);
      assert [Started] + replay == [Started] + init + [e];
    }
  }

  lemma DegradedConverses(log: seq<Event>, message: Bytes)
    requires Opened(log) && Warnings(log) == 0
    ensures Conversation(log + Frames(WasDegraded, message))
  {
    hide Opened, Conversation, Warnings;
    OpenedSnoc(log, Degraded);
    OpenedSnoc(log + [Degraded], Stderr(message));
    OpenedSnoc(log + [Degraded] + [Stderr(message)], Exit(None));
    assert log + Frames(WasDegraded, message) == log + [Degraded] + [Stderr(message)] + [Exit(None)];
  }

  lemma DiedConverses(log: seq<Event>, message: Bytes)
    requires Opened(log)
    ensures Conversation(log + Frames(DiedUnmarked, message))
  {
    hide Opened, Conversation;
    OpenedSnoc(log, Stderr(message));
    OpenedSnoc(log + [Stderr(message)], Exit(None));
    assert log + Frames(DiedUnmarked, message) == log + [Stderr(message)] + [Exit(None)];
  }

  lemma AttachedConverses(replay: seq<Event>, ending: Ending, message: Bytes)
    requires Served(Attached(replay, ending, message))
    ensures Conversation(Wire(Attached(replay, ending, message)))
  {
    var log := [Started] + replay;
    OutputOpened(replay);
    hide Opened, Conversation, Warnings;
    match ending
    case ExitedWith(code) => OpenedSnoc(log, Exit(code));
    case Mismatched => OpenedSnoc(log, Refused);
    case WasDegraded => DegradedConverses(log, message);
    case DiedUnmarked => DiedConverses(log, message);
    case Detached =>
  }

  /** Every path: Started first and once, output with at most one Degraded, one Exit or
      Refused last; and what the frames carry is what the path has to tell. */
  lemma ServedConverses(path: Path)
    requires Served(path)
    ensures Conversation(Wire(path)) && Tells(path, Wire(path))
  {
    OutputOpened([]);
    StartsLog();
    assert [Started] + [] == [Started];
    hide Opened, Conversation, Outs, Errs, Warnings;
    match path
    case Rejected(message) =>
      OpenedSnoc([Started], Stderr(message));
      OpenedSnoc([Started] + [Stderr(message)], Exit(None));
      Snoc([Started], Stderr(message));
      Snoc([Started] + [Stderr(message)], Exit(None));
    case Attached(replay, ending, message) =>
      AttachedConverses(replay, ending, message);
      AttachedRelays(replay, ending, message);
    case VacantReplay =>
      OpenedSnoc([Started], Refused);
      Snoc([Started], Refused);
    case JournalMissing =>
      OpenedSnoc([Started], Refused);
      Snoc([Started], Refused);
    case Ran(durable, out, err, steps, last) => RanTells(durable, out, err, steps, last);
  }

  lemma RanTells(durable: bool, out: Bytes, err: Bytes, steps: seq<Step>, last: State)
    requires Leads(Start(durable, out, err), steps, last) && last.main == Exited
    ensures Conversation(last.log) && Tells(Ran(durable, out, err, steps, last), last.log)
  {
    RunConverses(durable, out, err, steps, last);
    hide Outs, Errs, Leads, Statuses;
  }
}
