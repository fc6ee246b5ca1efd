/** A reconcile as its thread runs it: it reads the accessor through the getters, decides, and calls `Connect`,
    `HealthCheck` and `Disconnect`, each broken at lock boundaries, while any number of readers run in between.
    It performs the operations and reports what the reconcile of `Reconcile` does, which runs alone. */
module ReconcileProtocol {
  import opened Base
  import opened LockedState
  import opened AtomicAccessor
  import opened AccessorProtocol
  import opened Reconcile

  // ----- A reconcile is a sequence of operations -----

  /** The connect a reconcile makes, if it makes one. */
  function ConnectOps(config: Config, a: Atomic, creation: Creation, input: Input<nat>): seq<Op> {
    if ConnectPhase(config, a.locked, input).attempted then
      [OpConnect(creation, |a.caches|, input.generated, input.connectEnd,
                 Connect(a.locked, input.built, input.generated, input.connectEnd).1)]
    else []
  }

  /** The health check, and the disconnect that follows it if it has to. */
  function ProbeOps(config: Config, a: Atomic, input: Input<nat>): seq<Op> {
    if a.locked.connection.None? then []
    else if ShouldRequeue(input.probeCheck, a.locked.health.lastProbe, config.probeInterval).1 then []
    else
      var (_, tooMany, unauthorized) := HealthCheck(config, a.locked, input.probe, input.probeEnd);
      [OpHealthCheck(input.probe, input.probeEnd, tooMany, unauthorized)]
      + if tooMany || unauthorized then [OpDisconnect] else []
  }

  /** The operations of one reconcile that starts in state `a`. */
  function OpsOf(config: Config, a: Atomic, creation: Creation, input: Input<nat>): seq<Op> {
    var connect := ConnectOps(config, a, creation, input);
    connect + ProbeOps(config, Replay(config, a, connect), input)
  }

  lemma {:induction false} ReplayInTwo(config: Config, a: Atomic, first: seq<Op>, second: seq<Op>)
    ensures Replay(config, a, first + second) == Replay(config, Replay(config, a, first), second)
    ensures Legal(config, a, first) && Legal(config, Replay(config, a, first), second) ==>
              Legal(config, a, first + second)
  {
    var both := first + second;
    if second == [] {
      assert both == first;
    } else {
      assert both[..|both|-1] == first + second[..|second|-1];
      ReplayInTwo(config, a, first, second[..|second|-1]);
    }
  }

  lemma OneOp(config: Config, a: Atomic, op: Op)
    ensures Replay(config, a, [op]) == Apply(config, a, op)
    ensures Legal(config, a, [op]) <==> Returns(config, a, op)
  {
    assert [op][..0] == [];
  }

  lemma ConnectPhaseIsOps(config: Config, a: Atomic, creation: Creation, input: Input<nat>)
    requires input.built == BuiltBy(creation, |a.caches|)
    ensures var ops := ConnectOps(config, a, creation, input);
            && Legal(config, a, ops)
            && Replay(config, a, ops).locked == ConnectPhase(config, a.locked, input).state
  {
    var ops := ConnectOps(config, a, creation, input);
    if ops != [] {
      OneOp(config, a, ops[0]);
    }
  }

  lemma ProbePhaseIsOps(config: Config, a: Atomic, r: Report<nat>, input: Input<nat>)
    requires a.locked.connection.Some? && r.state == a.locked
    ensures var ops := ProbeOps(config, a, input);
            && Legal(config, a, ops)
            && Replay(config, a, ops).locked == ProbePhase(config, r, input).state
  {
    var ops := ProbeOps(config, a, input);
    if ops != [] {
      OneOp(config, a, ops[0]);
      var checked := Apply(config, a, ops[0]);
      if |ops| == 2 {
        OneOp(config, checked, ops[1]);
        ReplayInTwo(config, a, [ops[0]], [ops[1]]);
        assert ops == [ops[0]] + [ops[1]];
      } else {
        assert ops == [ops[0]];
      }
    }
  }

  /** A reconcile is its operations, one after the other. */
  lemma ReconcileIsOps(config: Config, a: Atomic, creation: Creation, input: Input<nat>)
    requires input.built == BuiltBy(creation, |a.caches|)
    ensures var ops := OpsOf(config, a, creation, input);
            && Legal(config, a, ops)
            && Replay(config, a, ops).locked == ReconcileReady(config, a.locked, input).state
  {
    var connect := ConnectOps(config, a, creation, input);
    var mid := Replay(config, a, connect);
    ConnectPhaseIsOps(config, a, creation, input);
    if mid.locked.connection.Some? {
      ProbePhaseIsOps(config, mid, ConnectPhase(config, a.locked, input), input);
    }
    ReplayInTwo(config, a, connect, ProbeOps(config, mid, input));
  }

  // ----- The thread of a reconcile -----

  /** The thread that reconciles; readers have other numbers. */
  const RECONCILER: nat := 0

  /** What the outside world answers during the reconcile, clock readings included. */
  datatype Answers = Answers(
    connectCheck: Time, creation: Creation, generated: Option<nat>, connectEnd: Time,
    probeCheck: Time, probe: ProbeOutcome, probeEnd: Time, eventsAt: Time)
  {
    /** The same answers for a reconcile that starts in `a`: a connection that is built gets the next cache. */
    function ToInput(a: Atomic): Input<nat> {
      Input(connectCheck, BuiltBy(creation, |a.caches|), generated, connectEnd, probeCheck, probe, probeEnd, eventsAt)
    }
  }

  /** The call the thread makes next, or is inside of. */
  datatype Position =
    | AtConnected
    | AtLastError
    | AtConnect
    | AtLastProbe
    | AtHealthCheck
    | AtDisconnect(unauthorized: bool)
    | AtLastSuccess
    | Finished(lastSuccess: Time)

  /** The thread's local variables, and the operations it has completed. */
  datatype Thread = Thread(
    at: Position, attempted: bool, didConnect: bool, probed: bool, didDisconnect: bool,
    durations: seq<int>, ops: seq<Op>)

  const BEGIN := Thread(AtConnected, false, false, false, false, [], [])

  function TimeIn(op: Op): Time {
    if op.OpGet? && op.value.TimeOf? then op.value.time else ZERO_TIME
  }

  function Waits(th: Thread, d: int): Thread {
    th.(at := AtLastSuccess, durations := th.durations + [d])
  }

  /** How the thread goes on when its call returns. All it knows of the accessor is what its calls returned. */
  function Proceed(config: Config, answers: Answers, th: Thread, op: Op): Thread {
    match th.at
    case AtConnected =>
      th.(at := if op.OpGet? && op.value == ConnectedIs(true) then AtLastProbe else AtLastError)
    case AtLastError =>
      var (wait, throttled) := ShouldRequeue(answers.connectCheck, TimeIn(op), config.retryInterval);
      if throttled then Waits(th, wait) else th.(at := AtConnect, attempted := true)
    case AtConnect =>
      var th' := th.(ops := th.ops + [op]);
      if op.OpConnect? && op.err.Some? then Waits(th', config.retryInterval)
      else th'.(at := AtLastProbe, didConnect := true)
    case AtLastProbe =>
      var (wait, throttled) := ShouldRequeue(answers.probeCheck, TimeIn(op), config.probeInterval);
      if throttled then Waits(th, wait) else th.(at := AtHealthCheck, probed := true)
    case AtHealthCheck =>
      var th' := th.(ops := th.ops + [op]);
      if op.OpHealthCheck? && (op.tooMany || op.unauthorized) then th'.(at := AtDisconnect(op.unauthorized))
      else Waits(th', config.probeInterval)
    case AtDisconnect(unauthorized) =>
      Waits(th.(ops := th.ops + [op], didDisconnect := true),
            if unauthorized then MILLISECOND else config.retryInterval)
    case AtLastSuccess => th.(at := Finished(TimeIn(op)))
    case Finished(_) => th
  }

  // ----- The thread alone, with indivisible operations -----

  /** The operation the thread performs next, with what it returns in state `a`. */
  function OpAt(config: Config, answers: Answers, at: Position, a: Atomic): Op
    requires !at.Finished?
  {
    match at
    case AtConnected => OpGet(RECONCILER, GetConnected, Get(a.locked, GetConnected))
    case AtLastError => OpGet(RECONCILER, GetLastError, Get(a.locked, GetLastError))
    case AtConnect =>
      if a.locked.connection.Some? then OpConnect(FailedBeforeStart, 0, None, ZERO_TIME, None) else
        var err := Connect(a.locked, BuiltBy(answers.creation, |a.caches|), answers.generated, answers.connectEnd).1;
        OpConnect(answers.creation, |a.caches|, answers.generated, answers.connectEnd, err)
    case AtLastProbe => OpGet(RECONCILER, GetLastProbe, Get(a.locked, GetLastProbe))
    case AtHealthCheck =>
      if a.locked.connection.None? then OpHealthCheck(ProbeOk, ZERO_TIME, false, false) else
        var (_, tooMany, unauthorized) := HealthCheck(config, a.locked, answers.probe, answers.probeEnd);
        OpHealthCheck(answers.probe, answers.probeEnd, tooMany, unauthorized)
    case AtDisconnect(_) => OpDisconnect
    case AtLastSuccess => OpGet(RECONCILER, GetLastProbeSuccess, Get(a.locked, GetLastProbeSuccess))
  }

  /** What a reconcile leaves behind: its report, its operations and the success time it passes to the sources. */
  datatype Outcome = Outcome(report: Report<nat>, ops: seq<Op>, lastSuccess: Time)

  function Left(th: Thread): nat {
    match th.at
    case AtConnected => 7
    case AtLastError => 6
    case AtConnect => 5
    case AtLastProbe => 4
    case AtHealthCheck => 3
    case AtDisconnect(_) => 2
    case AtLastSuccess => 1
    case Finished(_) => 0
  }

  lemma ProceedGoesOn(config: Config, answers: Answers, th: Thread, op: Op)
    requires !th.at.Finished?
    ensures Left(Proceed(config, answers, th, op)) < Left(th)
  {
  }

  /** The outcome if nobody else runs from now on. */
  function Alone(config: Config, answers: Answers, th: Thread, a: Atomic): Outcome
    decreases Left(th)
  {
    if th.at.Finished? then
      Outcome(Report(a.locked, th.attempted, th.didConnect, th.probed, th.didDisconnect, th.durations), th.ops,
              th.at.lastSuccess)
    else
      var op := OpAt(config, answers, th.at, a);
      ProceedGoesOn(config, answers, th, op);
      Alone(config, answers, Proceed(config, answers, th, op), Apply(config, a, op))
  }

  /** The outcome of a thread that has only the success time left to read. */
  function Told(th: Thread, a: Atomic): Outcome {
    Outcome(Report(a.locked, th.attempted, th.didConnect, th.probed, th.didDisconnect, th.durations), th.ops,
            a.locked.health.lastSuccess)
  }

  lemma AloneTells(config: Config, answers: Answers, th: Thread, a: Atomic)
    requires th.at.AtLastSuccess?
    ensures Alone(config, answers, th, a) == Told(th, a)
  {
  }

  lemma AloneDisconnects(config: Config, answers: Answers, th: Thread, a: Atomic)
    requires th.at.AtDisconnect?
    ensures var d := if th.at.unauthorized then MILLISECOND else config.retryInterval;
            Alone(config, answers, th, a) ==
              Told(th.(didDisconnect := true, durations := th.durations + [d], ops := th.ops + [OpDisconnect]),
                   Apply(config, a, OpDisconnect))
  {
    AloneTells(config, answers, Proceed(config, answers, th, OpDisconnect), Apply(config, a, OpDisconnect));
  }

  predicate ProbesWith(answers: Answers, input: Input<nat>) {
    input.probeCheck == answers.probeCheck && input.probe == answers.probe && input.probeEnd == answers.probeEnd
  }

  lemma AloneChecksHealth(config: Config, answers: Answers, th: Thread, a: Atomic)
    requires th.at.AtHealthCheck? && a.locked.connection.Some? && !th.didDisconnect
    ensures var (s, tooMany, unauthorized) := HealthCheck(config, a.locked, answers.probe, answers.probeEnd);
            var check := OpHealthCheck(answers.probe, answers.probeEnd, tooMany, unauthorized);
            var drop := tooMany || unauthorized;
            var d := if unauthorized then MILLISECOND
                     else if tooMany then config.retryInterval else config.probeInterval;
            Alone(config, answers, th, a) ==
              Outcome(Report(if drop then Disconnect(s) else s, th.attempted, th.didConnect, th.probed, drop,
                             th.durations + [d]),
                      th.ops + ([check] + if drop then [OpDisconnect] else []), s.health.lastSuccess)
  {
    var op := OpAt(config, answers, th.at, a);
    var th', a' := Proceed(config, answers, th, op), Apply(config, a, op);
    if th'.at.AtDisconnect? {
      AloneDisconnects(config, answers, th', a');
      assert th.ops + [op] + [OpDisconnect] == th.ops + ([op] + [OpDisconnect]);
    } else {
      AloneTells(config, answers, th', a');
    }
  }

  /** From the probe on, the thread does what `ProbePhase` does. */
  lemma AloneProbes(config: Config, answers: Answers, th: Thread, a: Atomic, input: Input<nat>)
    requires th.at.AtLastProbe? && a.locked.connection.Some? && !th.probed && !th.didDisconnect
    requires ProbesWith(answers, input)
    ensures var r := Report(a.locked, th.attempted, th.didConnect, false, false, th.durations);
            var r' := ProbePhase(config, r, input);
            Alone(config, answers, th, a) ==
              Outcome(r', th.ops + ProbeOps(config, a, input), r'.state.health.lastSuccess)
  {
    var th' := Proceed(config, answers, th, OpAt(config, answers, th.at, a));
    if th'.at.AtHealthCheck? {
      AloneChecksHealth(config, answers, th', a);
    } else {
      AloneTells(config, answers, th', a);
    }
  }

  lemma AloneAttempts(config: Config, answers: Answers, th: Thread, a: Atomic)
    requires th.at.AtConnect?
    ensures var op := OpAt(config, answers, AtConnect, a);
            var th' := th.(ops := th.ops + [op]);
            var a' := Apply(config, a, op);
            Alone(config, answers, th, a) ==
              if op.err.Some? then Told(th'.(durations := th.durations + [config.retryInterval]), a')
              else Alone(config, answers, th'.(at := AtLastProbe, didConnect := true), a')
  {
    var op := OpAt(config, answers, AtConnect, a);
    if op.err.Some? {
      AloneTells(config, answers, Proceed(config, answers, th, op), Apply(config, a, op));
    }
  }

  /** An attempt to connect, as the operation that the thread performs. */
  lemma AttemptIsConnectPhase(config: Config, answers: Answers, a: Atomic)
    requires a.locked.connection.None?
    requires !ShouldRequeue(answers.connectCheck, a.locked.lastError, config.retryInterval).1
    ensures var input := answers.ToInput(a);
            var op := OpAt(config, answers, AtConnect, a);
            var durations := if op.err.Some? then [config.retryInterval] else [];
            && ConnectOps(config, a, answers.creation, input) == [op]
            && Replay(config, a, [op]) == Apply(config, a, op)
            && ConnectPhase(config, a.locked, input)
            == Report(Apply(config, a, op).locked, true, op.err.None?, false, false, durations)
  {
    OneOp(config, a, OpAt(config, answers, AtConnect, a));
  }

  /** The thread after the connect phase. */
  function Connected(config: Config, answers: Answers, a: Atomic): Thread {
    var r := ConnectPhase(config, a.locked, answers.ToInput(a));
    Thread(AtLastProbe, r.attempted, r.didConnect, false, false, r.durations,
           ConnectOps(config, a, answers.creation, answers.ToInput(a)))
  }

  /** How the thread goes on after reading the last error. */
  lemma AloneReadsError(config: Config, answers: Answers, a: Atomic)
    ensures var (wait, throttled) := ShouldRequeue(answers.connectCheck, a.locked.lastError, config.retryInterval);
            Alone(config, answers, BEGIN.(at := AtLastError), a) ==
              if throttled then Told(BEGIN.(durations := [wait]), a)
              else Alone(config, answers, BEGIN.(at := AtConnect, attempted := true), a)
  {
    var begin := BEGIN.(at := AtLastError);
    var th := Proceed(config, answers, begin, OpAt(config, answers, AtLastError, a));
    assert Alone(config, answers, begin, a) == Alone(config, answers, th, a);
    if th.at.AtLastSuccess? {
      AloneTells(config, answers, th, a);
      assert th.durations == [th.durations[0]];
    }
  }

  /** Without a connection the thread does what `ConnectPhase` does, and then either is done or probes. */
  lemma AloneConnects(config: Config, answers: Answers, a: Atomic)
    requires a.locked.connection.None?
    ensures var r := ConnectPhase(config, a.locked, answers.ToInput(a));
            var th := Connected(config, answers, a);
            var a' := Replay(config, a, th.ops);
            && a'.locked == r.state
            && Alone(config, answers, BEGIN.(at := AtLastError), a) ==
                 if r.didConnect then Alone(config, answers, th, a') else Told(th, a')
  {
    AloneReadsError(config, answers, a);
    if !ShouldRequeue(answers.connectCheck, a.locked.lastError, config.retryInterval).1 {
      var th, op := BEGIN.(at := AtConnect, attempted := true), OpAt(config, answers, AtConnect, a);
      AloneAttempts(config, answers, th, a);
      AttemptIsConnectPhase(config, answers, a);
      assert th.ops + [op] == [op] && th.durations + [config.retryInterval] == [config.retryInterval];
    }
  }

  /** Alone, the thread performs the operations and reports the report of the reconcile. */
  lemma AloneIsReconcile(config: Config, answers: Answers, a: Atomic)
    ensures var input := answers.ToInput(a);
            var r := ReconcileReady(config, a.locked, input);
            Alone(config, answers, BEGIN, a) ==
              Outcome(r, OpsOf(config, a, answers.creation, input), r.state.health.lastSuccess)
  {
    var input := answers.ToInput(a);
    var begin := BEGIN.(at := if a.locked.connection.Some? then AtLastProbe else AtLastError);
    assert Alone(config, answers, BEGIN, a) == Alone(config, answers, begin, a);
    if a.locked.connection.Some? {
      AloneProbes(config, answers, begin, a, input);
      assert ConnectOps(config, a, answers.creation, input) == [] == begin.ops;
    } else {
      AloneConnects(config, answers, a);
      var th := Connected(config, answers, a);
      if th.didConnect {
        AloneProbes(config, answers, th, Replay(config, a, th.ops), input);
      } else {
        assert ProbeOps(config, Replay(config, a, th.ops), input) == [];
        assert th.ops + [] == th.ops;
      }
    }
  }

  /** The same but for watches. */
  predicate SameOutcome(p: Outcome, q: Outcome) {
    && p.report.(state := q.report.state) == q.report
    && WithoutWatches(p.report.state) == WithoutWatches(q.report.state)
    && p.ops == q.ops && p.lastSuccess == q.lastSuccess
  }

  lemma OpAtRespectsView(config: Config, answers: Answers, at: Position, a: Atomic, b: Atomic)
    requires SameForReconciler(a, b) && !at.Finished?
    ensures var op := OpAt(config, answers, at, a);
            op == OpAt(config, answers, at, b) && SameForReconciler(Apply(config, a, op), Apply(config, b, op))
  {
  }

  lemma {:induction false} AloneRespectsView(config: Config, answers: Answers, th: Thread, a: Atomic, b: Atomic)
    requires SameForReconciler(a, b)
    ensures SameOutcome(Alone(config, answers, th, a), Alone(config, answers, th, b))
    decreases Left(th)
  {
    if th.at.Finished? {
    } else {
      var op := OpAt(config, answers, th.at, a);
      var th' := Proceed(config, answers, th, op);
      OpAtRespectsView(config, answers, th.at, a, b);
      ProceedGoesOn(config, answers, th, op);
      AloneRespectsView(config, answers, th', Apply(config, a, op), Apply(config, b, op));
      assert Alone(config, answers, th, a) == Alone(config, answers, th', Apply(config, a, op));
      assert Alone(config, answers, th, b) == Alone(config, answers, th', Apply(config, b, op));
    }
  }

  // ----- The thread among readers -----

  /** An accessor whose reconcile is under way. */
  datatype Busy = Busy(w: World, thread: Thread)

  /** The steps the thread may take inside the call it is making, with the answers it gets. */
  predicate Calls(answers: Answers, at: Position, step: Step) {
    match at
    case AtConnected => step == Read(RECONCILER, GetConnected)
    case AtLastError => step == Read(RECONCILER, GetLastError)
    case AtConnect =>
      step.ConnectBegin? || step == CreateConnection(answers.creation)
      || step == ConnectFinish(answers.generated, answers.connectEnd)
    case AtLastProbe => step == Read(RECONCILER, GetLastProbe)
    case AtHealthCheck =>
      step.HealthBegin? || step.HealthReadClient? || step == HealthProbe(answers.probe)
      || step == HealthFinish(answers.probeEnd)
    case AtDisconnect(_) => step.DisconnectBegin? || step.DisconnectFinish?
    case AtLastSuccess => step == Read(RECONCILER, GetLastProbeSuccess)
    case Finished(_) => false
  }

  predicate OfReader(step: Step) {
    IsReaderStep(step) && step.thread != RECONCILER
  }

  predicate CanStep(answers: Answers, s: Busy, step: Step) {
    Enabled(s.w, step) && (OfReader(step) || Calls(answers, s.thread.at, step))
  }

  /** One step of a reader or of the thread; the thread goes on when the operation it called has completed. */
  function StepOnce(config: Config, answers: Answers, s: Busy, step: Step): Busy
    requires CanStep(answers, s, step)
  {
    var w := Next(config, s.w, step);
    if OfReader(step) || |w.log| <= |s.w.log| then s.(w := w)
    else Busy(w, Proceed(config, answers, s.thread, w.log[|w.log|-1]))
  }

  predicate CanReconcile(config: Config, answers: Answers, w: World, steps: seq<Step>)
    decreases steps, 0
  {
    steps == [] || (CanReconcile(config, answers, w, steps[..|steps|-1])
                    && CanStep(answers, Reconciling(config, answers, w, steps[..|steps|-1]), steps[|steps|-1]))
  }

  /** A reconcile that begins in `w`, after these steps of its thread and of readers. */
  function Reconciling(config: Config, answers: Answers, w: World, steps: seq<Step>): Busy
    requires CanReconcile(config, answers, w, steps)
    decreases steps, 1
  {
    if steps == [] then Busy(w, BEGIN)
    else StepOnce(config, answers, Reconciling(config, answers, w, steps[..|steps|-1]), steps[|steps|-1])
  }

  /** The accessor is inside the operation the thread has called, and got the thread's answers. */
  predicate InTheCall(answers: Answers, s: Busy) {
    match s.w.reconciler
    case Idle => true
    case Connecting => s.thread.at.AtConnect?
    case ConnectionReady(creation) => s.thread.at.AtConnect? && creation == answers.creation
    case Disconnecting => s.thread.at.AtDisconnect?
    case CheckingHealth => s.thread.at.AtHealthCheck?
    case Probing(_) => s.thread.at.AtHealthCheck?
    case Probed(_, probe) => s.thread.at.AtHealthCheck? && probe == answers.probe
  }

  ghost predicate BusyInv(config: Config, answers: Answers, s: Busy, expected: Outcome) {
    && Inv(s.w) && InTheCall(answers, s) && RECONCILER !in s.w.watchers
    && SameOutcome(Alone(config, answers, s.thread, Abstraction(s.w)), expected)
  }

  /** When the thread's call completes, it has performed and returned what it does alone in this state. */
  lemma CallReturnsAsAlone(config: Config, answers: Answers, s: Busy, step: Step)
    requires Inv(s.w) && InTheCall(answers, s) && Enabled(s.w, step) && Calls(answers, s.thread.at, step)
    ensures var w := Next(config, s.w, step);
            |w.log| > |s.w.log| ==>
              && w.log[|w.log|-1] == OpAt(config, answers, s.thread.at, Abstraction(s.w))
              && w.reconciler.Idle?
  {
  }

  lemma CallStaysInside(config: Config, answers: Answers, s: Busy, step: Step)
    requires Inv(s.w) && InTheCall(answers, s) && CanStep(answers, s, step)
    ensures InTheCall(answers, StepOnce(config, answers, s, step))
    ensures RECONCILER !in s.w.watchers ==> RECONCILER !in StepOnce(config, answers, s, step).w.watchers
  {
    if !OfReader(step) {
      CallReturnsAsAlone(config, answers, s, step);
    }
  }

  lemma ReaderStepIsInvisible(config: Config, w: World, step: Step)
    requires Inv(w) && Enabled(w, step) && IsReaderStep(step)
    ensures SameForReconciler(Abstraction(w), Abstraction(Next(config, w, step)))
  {
    var w' := Next(config, w, step);
    ReaderStepSimulates(config, w, step);
    assert w'.caches == w.caches;
  }

  lemma StepKeepsOutcome(config: Config, answers: Answers, s: Busy, step: Step, expected: Outcome)
    requires BusyInv(config, answers, s, expected) && CanStep(answers, s, step)
    ensures BusyInv(config, answers, StepOnce(config, answers, s, step), expected)
  {
    var w := Next(config, s.w, step);
    StepKeepsInv(config, s.w, step);
    CallStaysInside(config, answers, s, step);
    if OfReader(step) {
      ReaderStepIsInvisible(config, s.w, step);
      AloneRespectsView(config, answers, s.thread, Abstraction(s.w), Abstraction(w));
    } else if |w.log| > |s.w.log| {
      CallReturnsAsAlone(config, answers, s, step);
    }
  }

  lemma {:induction false} OutcomeIsKept(config: Config, answers: Answers, w: World, steps: seq<Step>)
    requires Inv(w) && w.reconciler.Idle? && RECONCILER !in w.watchers && CanReconcile(config, answers, w, steps)
    ensures BusyInv(config, answers, Reconciling(config, answers, w, steps),
                    Alone(config, answers, BEGIN, Abstraction(w)))
  {
    if steps == [] {
    } else {
      var before := steps[..|steps|-1];
      OutcomeIsKept(config, answers, w, before);
      StepKeepsOutcome(config, answers, Reconciling(config, answers, w, before), steps[|steps|-1],
                       Alone(config, answers, BEGIN, Abstraction(w)));
    }
  }

  /** What the thread decides about an accessor, in terms of the answers it got; `cache` is the index of the cache that
      a connect would start. */
  ghost predicate Decided(
    config: Config, s: Locked<nat>, answers: Answers, cache: nat,
    s': Locked<nat>, wait: int, didConnect: bool, didDisconnect: bool)
  {
    if s.connection.Some? then
      !didConnect
      && ProbeDecides(config, s, answers.probeCheck, answers.probe, answers.probeEnd, s', wait, didDisconnect)
    else
      ConnectDecides(config, s, answers.connectCheck, BuiltBy(answers.creation, cache), answers.generated,
                     answers.connectEnd, answers.probeCheck, answers.probe, answers.probeEnd,
                     s', wait, didConnect, didDisconnect)
  }

  /** A reconcile that sees no watches reports the same, without watches. */
  lemma ReconcileWithoutWatches(config: Config, s: Locked<nat>, input: Input<nat>)
    ensures var r := ReconcileReady(config, s, input);
            ReconcileReady(config, WithoutWatches(s), input) == r.(state := WithoutWatches(r.state))
  {
  }

  lemma ThreadDecides(config: Config, s: Locked<nat>, answers: Answers, a: Atomic)
    ensures var r := ReconcileReady(config, s, answers.ToInput(a));
            && |r.durations| == 1
            && Decided(config, WithoutWatches(s), answers, |a.caches|,
                       WithoutWatches(r.state), r.durations[0], r.didConnect, r.didDisconnect)
  {
    ReconcileWithoutWatches(config, s, answers.ToInput(a));
    ReconcileDecides(config, WithoutWatches(s), answers.ToInput(a));
  }

  /** Whatever readers do during a reconcile, its thread performs the operations, collects the duration, sets the
      flags, reads the success time and leaves the state, but for watches, of a reconcile that runs alone. */
  lemma InterleavedReconcileIsReconcile(config: Config, answers: Answers, w: World, steps: seq<Step>)
    requires Inv(w) && w.reconciler.Idle? && RECONCILER !in w.watchers && CanReconcile(config, answers, w, steps)
    requires Reconciling(config, answers, w, steps).thread.at.Finished?
    ensures var s := Reconciling(config, answers, w, steps);
            var input := answers.ToInput(Abstraction(w));
            var r := ReconcileReady(config, w.locked, input);
            && s.thread.attempted == r.attempted && s.thread.didConnect == r.didConnect
            && s.thread.probed == r.probed && s.thread.didDisconnect == r.didDisconnect
            && s.thread.durations == r.durations
            && s.thread.at.lastSuccess == r.state.health.lastSuccess
            && WithoutWatches(s.w.locked) == WithoutWatches(r.state)
            && s.thread.ops == OpsOf(config, Abstraction(w), answers.creation, input)
            && |s.thread.durations| == 1
            && Decided(config, WithoutWatches(w.locked), answers, |Abstraction(w).caches|,
                       WithoutWatches(s.w.locked), s.thread.durations[0], s.thread.didConnect, s.thread.didDisconnect)
            && Inv(s.w) && s.w.reconciler.Idle? && RECONCILER !in s.w.watchers
  {
    OutcomeIsKept(config, answers, w, steps);
    AloneIsReconcile(config, answers, Abstraction(w));
    ThreadDecides(config, w.locked, answers, Abstraction(w));
  }

  /** The step with which the thread can always go on. */
  function ThreadStep(answers: Answers, s: Busy): Step
    requires !s.thread.at.Finished?
  {
    match s.thread.at
    case AtConnected => Read(RECONCILER, GetConnected)
    case AtLastError => Read(RECONCILER, GetLastError)
    case AtConnect =>
      if s.w.reconciler.Connecting? then CreateConnection(answers.creation)
      else if s.w.reconciler.ConnectionReady? then ConnectFinish(answers.generated, answers.connectEnd)
      else ConnectBegin
    case AtLastProbe => Read(RECONCILER, GetLastProbe)
    case AtHealthCheck =>
      if s.w.reconciler.CheckingHealth? then HealthReadClient
      else if s.w.reconciler.Probing? then HealthProbe(answers.probe)
      else if s.w.reconciler.Probed? then HealthFinish(answers.probeEnd)
      else HealthBegin
    case AtDisconnect(_) => if s.w.reconciler.Disconnecting? then DisconnectFinish else DisconnectBegin
    case AtLastSuccess => Read(RECONCILER, GetLastProbeSuccess)
  }

  lemma ThreadStepIsPossible(answers: Answers, s: Busy)
    requires InTheCall(answers, s) && RECONCILER !in s.w.watchers && !s.thread.at.Finished?
    ensures CanStep(answers, s, ThreadStep(answers, s))
  {
  }

  /** No reader can keep the thread from going on. */
  lemma ReconcileIsNeverStuck(config: Config, answers: Answers, w: World, steps: seq<Step>)
    requires Inv(w) && w.reconciler.Idle? && RECONCILER !in w.watchers && CanReconcile(config, answers, w, steps)
    ensures var s := Reconciling(config, answers, w, steps);
            s.thread.at.Finished? || CanStep(answers, s, ThreadStep(answers, s))
  {
    OutcomeIsKept(config, answers, w, steps);
    var s := Reconciling(config, answers, w, steps);
    if !s.thread.at.Finished? {
      ThreadStepIsPossible(answers, s);
    }
  }
}
