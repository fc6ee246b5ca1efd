/** Runs of reconciles of one accessor over time, interleaved with readers that add watches and with reconciles
    that stop at the readiness gate: what was attempted when, and what the accessor's timestamps say about it. */
module Timing {
  import opened Base
  import opened LockedState
  import opened Reconcile

  /** A connect attempt or a probe, from the reading of the clock that allowed it to the one that recorded it. */
  datatype Event =
    | Attempt(start: Time, end: Time, ok: bool)
    | Probe(start: Time, end: Time, outcome: ProbeOutcome)

  datatype Tick<+C> =
    | Ready(input: Input<C>)
    | Gated(at: Time)                          // Cluster not readable, or infrastructure not ready
    | Watching(name: string, starts: bool)     // a reader's `Watch`

  datatype Timed<+C> = Timed(state: Locked<C>, clock: Time, history: seq<Event>)

  function Begin<C>(clock: Time): Timed<C> {
    Timed(Fresh(), clock, [])
  }

  function EventsOf<C>(config: Config, s: Locked<C>, input: Input<C>): seq<Event> {
    var r := ReconcileReady(config, s, input);
    (if r.attempted then [Attempt(input.connectCheck, input.connectEnd, r.didConnect)] else [])
    + (if r.probed then [Probe(input.probeCheck, input.probeEnd, input.probe)] else [])
  }

  predicate Possible<C>(t: Timed<C>, tick: Tick<C>) {
    match tick
    case Ready(input) => Ordered(input, t.clock)
    case Gated(at) => t.clock <= at
    case Watching(_, _) => true
  }

  function After<C>(config: Config, t: Timed<C>, tick: Tick<C>): Timed<C> {
    match tick
    case Ready(input) =>
      Timed(ReconcileReady(config, t.state, input).state, input.eventsAt, t.history + EventsOf(config, t.state, input))
    case Gated(at) => t.(clock := at)
    case Watching(name, starts) => t.(state := Watch(t.state, name, starts).0)
  }

  function RunTicks<C>(config: Config, t: Timed<C>, ticks: seq<Tick<C>>): Timed<C> {
    if ticks == [] then t
    else After(config, RunTicks(config, t, ticks[..|ticks|-1]), ticks[|ticks|-1])
  }

  predicate AllPossible<C>(config: Config, t: Timed<C>, ticks: seq<Tick<C>>) {
    ticks == [] || (AllPossible(config, t, ticks[..|ticks|-1])
                    && Possible(RunTicks(config, t, ticks[..|ticks|-1]), ticks[|ticks|-1]))
  }

  // ----- What the history of events looks like -----

  predicate FailedAttempt(e: Event) {
    e.Attempt? && !e.ok
  }

  /** Failed probes since the later of the last successful probe and the last successful connect. */
  function FailedProbes(h: seq<Event>): nat {
    if h == [] then 0 else
      match h[|h|-1]
      case Attempt(_, _, ok) => if ok then 0 else FailedProbes(h[..|h|-1])
      case Probe(_, _, outcome) => if outcome.ProbeOk? then 0 else FailedProbes(h[..|h|-1]) + 1
  }

  /** The time of the last successful probe or connect, or zero. */
  function LastGood(h: seq<Event>): Time {
    if h == [] then ZERO_TIME else
      match h[|h|-1]
      case Attempt(_, end, ok) => if ok then end else LastGood(h[..|h|-1])
      case Probe(_, end, outcome) => if outcome.ProbeOk? then end else LastGood(h[..|h|-1])
  }

  predicate IsSuccess(e: Event) {
    match e
    case Attempt(_, _, ok) => ok
    case Probe(_, _, outcome) => outcome.ProbeOk?
  }

  /** The index after the last successful connect or probe, 0 if there was none. */
  function AfterLastSuccess(h: seq<Event>): (k: nat)
    ensures k <= |h|
    ensures k > 0 ==> IsSuccess(h[k-1])
    ensures forall i :: k <= i < |h| ==> !IsSuccess(h[i])
  {
    if h == [] then 0 else if IsSuccess(h[|h|-1]) then |h| else AfterLastSuccess(h[..|h|-1])
  }

  function ProbesFrom(h: seq<Event>, k: nat): set<nat> {
    set i | k <= i < |h| && h[i].Probe?
  }

  lemma ProbesOneMore(h: seq<Event>, k: nat)
    requires k < |h|
    ensures |ProbesFrom(h, k)| == |ProbesFrom(h[..|h|-1], k)| + (if h[|h|-1].Probe? then 1 else 0)
  {
    assert ProbesFrom(h, k) - {|h| - 1} == ProbesFrom(h[..|h|-1], k);
  }

  /** What the two folds compute: how many probes there were since the last success, and when that success ended. */
  lemma {:induction false} FoldsSayWhatHappened(h: seq<Event>)
    ensures var k := AfterLastSuccess(h);
            && FailedProbes(h) == |ProbesFrom(h, k)|
            && LastGood(h) == if k == 0 then ZERO_TIME else h[k-1].end
  {
    if h == [] {
    } else {
      var n := |h| - 1;
      var k := AfterLastSuccess(h);
      if IsSuccess(h[n]) {
        assert ProbesFrom(h, k) == {};
      } else {
        FoldsSayWhatHappened(h[..n]);
        ProbesOneMore(h, k);
      }
    }
  }

  /** Every attempt starts at least the retry interval after every earlier failed attempt ended. A probe follows
      a probe or a successful connect of the same connection and starts at least the probe interval after it. */
  predicate Spaced(config: Config, h: seq<Event>) {
    && (forall i, j :: 0 <= i < j < |h| && FailedAttempt(h[i]) && h[j].Attempt? ==>
          h[i].end + config.retryInterval <= h[j].start)
    && (forall j :: 0 <= j < |h| && h[j].Probe? ==>
          0 < j && !FailedAttempt(h[j-1]) && h[j-1].end + config.probeInterval <= h[j].start)
  }

  /** The last thing that happened was not a failed attempt. */
  predicate Untroubled(h: seq<Event>) {
    h == [] || !FailedAttempt(h[|h|-1])
  }

  /** What the accessor's timestamps and counter say about the history. */
  predicate Stamped<C>(config: Config, t: Timed<C>) {
    var s, h := t.state, t.history;
    && ZERO_TIME <= s.health.lastSuccess <= s.health.lastProbe <= t.clock
    && ZERO_TIME <= s.lastError <= t.clock
    && s.health.lastSuccess == LastGood(h)
    && s.health.failures == FailedProbes(h) <= Max(config.failureThreshold, 1)
    && (Untroubled(h) && s.lastError != ZERO_TIME ==> s.lastError + config.retryInterval <= t.clock)
    && (s.connection.Some? ==>
          && h != [] && Untroubled(h) && h[|h|-1].end == s.health.lastProbe > ZERO_TIME
          && s.health.failures < Max(config.failureThreshold, 1))
  }

  /** The error timestamp is no earlier than any failure. */
  predicate FailuresRecorded(h: seq<Event>, lastError: Time) {
    forall i :: 0 <= i < |h| && FailedAttempt(h[i]) ==> ZERO_TIME < h[i].end <= lastError
  }

  predicate TimedInv<C>(config: Config, t: Timed<C>) {
    Stamped(config, t) && Spaced(config, t.history) && FailuresRecorded(t.history, t.state.lastError)
  }

  lemma Snoc(h: seq<Event>, e: Event)
    ensures FailedProbes(h + [e]) == match e
              case Attempt(_, _, ok) => if ok then 0 else FailedProbes(h)
              case Probe(_, _, outcome) => if outcome.ProbeOk? then 0 else FailedProbes(h) + 1
    ensures LastGood(h + [e]) == match e
              case Attempt(_, end, ok) => if ok then end else LastGood(h)
              case Probe(_, end, outcome) => if outcome.ProbeOk? then end else LastGood(h)
  {
    assert (h + [e])[..|h + [e]|-1] == h;
  }

  lemma AttemptKeepsSpacing(config: Config, h: seq<Event>, e: Event, lastError: Time)
    requires Spaced(config, h) && FailuresRecorded(h, lastError) && e.Attempt?
    requires lastError == ZERO_TIME || lastError + config.retryInterval <= e.start
    ensures Spaced(config, h + [e])
    ensures lastError <= e.end && FailedAttempt(e) && ZERO_TIME < e.end ==> FailuresRecorded(h + [e], e.end)
    ensures !FailedAttempt(e) ==> FailuresRecorded(h + [e], lastError)
  {
  }

  lemma ProbeKeepsSpacing(config: Config, h: seq<Event>, e: Event, lastError: Time)
    requires Spaced(config, h) && FailuresRecorded(h, lastError) && e.Probe?
    requires h != [] && Untroubled(h) && h[|h|-1].end + config.probeInterval <= e.start
    ensures Spaced(config, h + [e]) && FailuresRecorded(h + [e], lastError)
  {
  }

  /** A reconcile after its connect phase, and after its probe phase. */
  function AfterConnect<C>(config: Config, t: Timed<C>, input: Input<C>): Timed<C> {
    var r := ConnectPhase(config, t.state, input);
    Timed(r.state, input.connectEnd,
          if r.attempted then t.history + [Attempt(input.connectCheck, input.connectEnd, r.didConnect)] else t.history)
  }

  function AfterProbe<C>(config: Config, t: Timed<C>, input: Input<C>): Timed<C> {
    var r := ProbePhase(config, Report(t.state, false, false, false, false, []), input);
    Timed(r.state, input.eventsAt,
          if r.probed then t.history + [Probe(input.probeCheck, input.probeEnd, input.probe)] else t.history)
  }

  lemma ReadyIsTwoPhases<C>(config: Config, t: Timed<C>, input: Input<C>)
    ensures var mid := AfterConnect(config, t, input);
            After(config, t, Ready(input)) ==
              if mid.state.connection.Some? then AfterProbe(config, mid, input) else mid.(clock := input.eventsAt)
  {
  }

  lemma ConnectPhaseKeepsStamps<C>(config: Config, t: Timed<C>, input: Input<C>)
    requires Stamped(config, t) && Ordered(input, t.clock)
    ensures Stamped(config, AfterConnect(config, t, input))
  {
    var r := ConnectPhase(config, t.state, input);
    if r.attempted {
      Snoc(t.history, Attempt(input.connectCheck, input.connectEnd, r.didConnect));
    }
  }

  /** An attempt is made only if none failed within the retry interval, and a failed one is stamped. */
  lemma AttemptsAreStamped<C>(config: Config, s: Locked<C>, input: Input<C>)
    ensures var r := ConnectPhase(config, s, input);
            if r.attempted then
              && (s.lastError == ZERO_TIME || s.lastError + config.retryInterval <= input.connectCheck)
              && r.state.lastError == if r.didConnect then s.lastError else input.connectEnd
            else r.state == s
  {
  }

  lemma ConnectPhaseKeepsInv<C>(config: Config, t: Timed<C>, input: Input<C>)
    requires TimedInv(config, t) && Ordered(input, t.clock)
    ensures TimedInv(config, AfterConnect(config, t, input))
  {
    ConnectPhaseKeepsStamps(config, t, input);
    AttemptsAreStamped(config, t.state, input);
    var r := ConnectPhase(config, t.state, input);
    if r.attempted {
      var e := Attempt(input.connectCheck, input.connectEnd, r.didConnect);
      AttemptKeepsSpacing(config, t.history, e, t.state.lastError);
    }
  }

  lemma ProbePhaseKeepsInv<C>(config: Config, t: Timed<C>, input: Input<C>)
    requires TimedInv(config, t) && t.state.connection.Some?
    requires t.clock <= input.probeCheck <= input.probeEnd <= input.eventsAt
    ensures TimedInv(config, AfterProbe(config, t, input))
  {
    var t' := AfterProbe(config, t, input);
    if t'.history != t.history {
      var e := Probe(input.probeCheck, input.probeEnd, input.probe);
      Snoc(t.history, e);
      ProbeKeepsSpacing(config, t.history, e, t.state.lastError);
    }
  }

  lemma ReadyKeepsInv<C>(config: Config, t: Timed<C>, input: Input<C>)
    requires TimedInv(config, t) && Ordered(input, t.clock)
    ensures TimedInv(config, After(config, t, Ready(input)))
  {
    ReadyIsTwoPhases(config, t, input);
    ConnectPhaseKeepsInv(config, t, input);
    var mid := AfterConnect(config, t, input);
    if mid.state.connection.Some? {
      ProbePhaseKeepsInv(config, mid, input);
    }
  }

  lemma WatchKeepsInv<C>(config: Config, t: Timed<C>, tick: Tick<C>)
    requires TimedInv(config, t) && tick.Watching?
    ensures TimedInv(config, After(config, t, tick))
  {
  }

  /** The success time never decreases and the history only grows. */
  lemma TickGoesForward<C>(config: Config, t: Timed<C>, tick: Tick<C>)
    requires Stamped(config, t) && Possible(t, tick)
    ensures t.state.health.lastSuccess <= After(config, t, tick).state.health.lastSuccess
    ensures t.history <= After(config, t, tick).history
  {
    if tick.Ready? {
      ReadyIsTwoPhases(config, t, tick.input);
    }
  }

  lemma TickKeepsInv<C>(config: Config, t: Timed<C>, tick: Tick<C>)
    requires TimedInv(config, t) && Possible(t, tick)
    ensures TimedInv(config, After(config, t, tick))
  {
    if tick.Ready? {
      ReadyKeepsInv(config, t, tick.input);
    } else if tick.Watching? {
      WatchKeepsInv(config, t, tick);
    }
  }

  /** Over whole runs: the history of attempts and probes is spaced, timestamps are ordered, and a connection found at
      a reconcile boundary has failed fewer probes than the threshold. */
  lemma {:induction false} RunsAreSpaced<C>(config: Config, clock: Time, ticks: seq<Tick<C>>)
    requires ZERO_TIME <= clock && AllPossible(config, Begin(clock), ticks)
    ensures var t := RunTicks(config, Begin<C>(clock), ticks);
            && TimedInv(config, t)
            && Spaced(config, t.history)
            && t.state.health.lastSuccess <= t.state.health.lastProbe <= t.clock
            && (config.failureThreshold >= 1 ==>
                  && t.state.health.failures <= config.failureThreshold
                  && (t.state.connection.Some? ==> t.state.health.failures < config.failureThreshold))
  {
    if ticks == [] {
    } else {
      RunsAreSpaced(config, clock, ticks[..|ticks|-1]);
      TickKeepsInv(config, RunTicks(config, Begin<C>(clock), ticks[..|ticks|-1]), ticks[|ticks|-1]);
    }
  }

  /** Over whole runs: the failure counter is the number of probes since the last success in the history, and the
      success time is when that success ended, or zero. */
  lemma StampsTellTheHistory<C>(config: Config, clock: Time, ticks: seq<Tick<C>>)
    requires ZERO_TIME <= clock && AllPossible(config, Begin(clock), ticks)
    ensures var t := RunTicks(config, Begin<C>(clock), ticks);
            var k := AfterLastSuccess(t.history);
            && t.state.health.failures == |ProbesFrom(t.history, k)|
            && t.state.health.lastSuccess == if k == 0 then ZERO_TIME else t.history[k-1].end
  {
    RunsAreSpaced(config, clock, ticks);
    FoldsSayWhatHappened(RunTicks(config, Begin<C>(clock), ticks).history);
  }

  /** Between any two points of a run the last success never moves back and history only grows. */
  lemma {:induction false} LastSuccessNeverDecreases<C>(config: Config, t: Timed<C>, ticks: seq<Tick<C>>)
    requires TimedInv(config, t) && AllPossible(config, t, ticks)
    ensures var t' := RunTicks(config, t, ticks);
            && TimedInv(config, t')
            && t.state.health.lastSuccess <= t'.state.health.lastSuccess
            && t.clock <= t'.clock
            && t.history <= t'.history
  {
    if ticks == [] {
    } else {
      LastSuccessNeverDecreases(config, t, ticks[..|ticks|-1]);
      var before := RunTicks(config, t, ticks[..|ticks|-1]);
      TickKeepsInv(config, before, ticks[|ticks|-1]);
      TickGoesForward(config, before, ticks[|ticks|-1]);
      assert before.clock <= After(config, before, ticks[|ticks|-1]).clock;
    }
  }

  /** The last success, if there is one, is no earlier than the accessor. */
  lemma {:induction false} SuccessIsOfThisLifetime<C>(config: Config, clock: Time, ticks: seq<Tick<C>>)
    requires ZERO_TIME <= clock && AllPossible(config, Begin(clock), ticks)
    ensures var t := RunTicks(config, Begin<C>(clock), ticks);
            clock <= t.clock && (t.state.health.lastSuccess == ZERO_TIME || clock <= t.state.health.lastSuccess)
  {
    if ticks == [] {
    } else {
      SuccessIsOfThisLifetime(config, clock, ticks[..|ticks|-1]);
    }
  }

  // ----- Progress -----

  /** Ticks that are no reconcile past the readiness gate. */
  predicate Quiet<C>(tick: Tick<C>) {
    !tick.Ready?
  }

  lemma {:induction false} QuietTicksChangeNothing<C>(config: Config, t: Timed<C>, ticks: seq<Tick<C>>)
    requires AllPossible(config, t, ticks) && forall tick <- ticks :: Quiet(tick)
    ensures var t' := RunTicks(config, t, ticks);
            && WithoutWatches(t'.state) == WithoutWatches(t.state)
            && t'.history == t.history
            && t.clock <= t'.clock
  {
    if ticks == [] {
    } else {
      QuietTicksChangeNothing(config, t, ticks[..|ticks|-1]);
      assert Quiet(ticks[|ticks|-1]);
    }
  }

  /** At instant `w` the accessor has something to do: its next probe or connect attempt is due. */
  predicate DueAt<C>(config: Config, s: Locked<C>, w: Time) {
    if s.connection.Some? then s.health.lastProbe + config.probeInterval <= w
    else s.lastError == ZERO_TIME || s.lastError + config.retryInterval <= w
  }

  lemma DueMeansAction<C>(config: Config, s: Locked<C>, input: Input<C>)
    requires Ordered(input, ZERO_TIME) && DueAt(config, s, input.connectCheck)
    ensures ReconcileReady(config, s, input).attempted || ReconcileReady(config, s, input).probed
  {
  }

  /** A throttled action waits a positive time, within its interval. */
  lemma ThrottleWait(now: Time, last: Time, interval: int)
    requires ZERO_TIME <= last <= now && 0 < interval
    ensures var (wait, throttled) := ShouldRequeue(now, last, interval);
            throttled ==> 0 < wait <= interval && now + wait == last + interval
  {
  }

  /** How long a reconcile asks to wait. */
  lemma WaitIs<C>(config: Config, t: Timed<C>, input: Input<C>)
    requires 0 < config.retryInterval && 0 < config.probeInterval
    requires Stamped(config, t) && Ordered(input, t.clock)
    ensures var r := ReconcileReady(config, t.state, input);
            && |r.durations| == 1 && 0 < r.durations[0]
            && (if r.probed && input.probe.ProbeUnauthorized? then r.durations[0] == MILLISECOND
                else r.durations[0] <= Max(config.retryInterval, config.probeInterval))
  {
    ThrottleWait(input.connectCheck, t.state.lastError, config.retryInterval);
    ThrottleWait(input.probeCheck, t.state.health.lastProbe, config.probeInterval);
    ThrottleWait(input.probeCheck, input.connectEnd, config.probeInterval);
  }

  /** A reconcile asks to be woken when there will be something to do. */
  lemma WakesWhenDue<C>(config: Config, t: Timed<C>, input: Input<C>)
    requires 0 < config.retryInterval && 0 < config.probeInterval
    requires TimedInv(config, t) && Ordered(input, t.clock)
    requires |ReconcileReady(config, t.state, input).durations| == 1
    ensures var r := ReconcileReady(config, t.state, input);
            DueAt(config, r.state, input.eventsAt + r.durations[0])
  {
    ConnectPhaseKeepsStamps(config, t, input);
  }

  lemma WokenWhenDue<C>(config: Config, t: Timed<C>, input: Input<C>)
    requires 0 < config.retryInterval && 0 < config.probeInterval
    requires TimedInv(config, t) && Ordered(input, t.clock)
    ensures var r := ReconcileReady(config, t.state, input);
            && |r.durations| == 1
            && 0 < r.durations[0] <= Max(MILLISECOND, Max(config.retryInterval, config.probeInterval))
            && DueAt(config, r.state, input.eventsAt + r.durations[0])
  {
    WaitIs(config, t, input);
    WakesWhenDue(config, t, input);
  }

  /** The guards on the way to a probe: the connection is there and due, or the reconcile may connect, succeeds and
      took so long that a probe is due again. */
  predicate WillProbe<C>(config: Config, s: Locked<C>, input: Input<C>) {
    if s.connection.Some? then s.health.lastProbe + config.probeInterval <= input.probeCheck
    else
      && (s.lastError == ZERO_TIME || s.lastError + config.retryInterval <= input.connectCheck)
      && input.built.Built? && (s.privateKey.Some? || input.generated.Some?)
      && input.connectEnd + config.probeInterval <= input.probeCheck
  }

  lemma ProbedIffWillProbe<C>(config: Config, t: Timed<C>, input: Input<C>)
    requires Stamped(config, t) && Ordered(input, t.clock)
    ensures ReconcileReady(config, t.state, input).probed <==> WillProbe(config, t.state, input)
  {
  }

  /** The wait is within the larger interval exactly when the reconcile does not reach a probe that is rejected as
      unauthorized, or the interval is at least the millisecond that such a probe asks for. */
  lemma WaitIsWithinIntervalsIff<C>(config: Config, t: Timed<C>, input: Input<C>)
    requires 0 < config.retryInterval && 0 < config.probeInterval
    requires TimedInv(config, t) && Ordered(input, t.clock)
    ensures var durations := ReconcileReady(config, t.state, input).durations;
            var longest := Max(config.retryInterval, config.probeInterval);
            && |durations| == 1
            && (durations[0] <= longest <==>
                  !(WillProbe(config, t.state, input) && input.probe.ProbeUnauthorized?) || MILLISECOND <= longest)
  {
    WaitIs(config, t, input);
    ProbedIffWillProbe(config, t, input);
  }

  /** The built-in configuration is on the safe side: the wait is always positive and within 30 seconds. */
  lemma DefaultWaitIsWithinIntervals<C>(t: Timed<C>, input: Input<C>)
    requires TimedInv(DEFAULT_CONFIG, t) && Ordered(input, t.clock)
    ensures var durations := ReconcileReady(DEFAULT_CONFIG, t.state, input).durations;
            && |durations| == 1
            && 0 < durations[0] <= Max(DEFAULT_CONFIG.retryInterval, DEFAULT_CONFIG.probeInterval) == 30 * SECOND
  {
    WokenWhenDue(DEFAULT_CONFIG, t, input);
    WaitIsWithinIntervalsIff(DEFAULT_CONFIG, t, input);
  }

  /** The built-in configuration in nanoseconds: the next probe is due 10 seconds after the last contact, a failed
      connect is retried after 30 seconds, and the fifth failed probe in a row drops the connection. */
  lemma DefaultScheduleIs<C>(s: Locked<C>, input: Input<C>)
    ensures var r := ReconcileReady(DEFAULT_CONFIG, s, input);
            && (s.connection.Some? && s.health.lastProbe > ZERO_TIME ==>
                  && (r.probed <==> s.health.lastProbe + 10_000_000_000 <= input.probeCheck)
                  && (r.didDisconnect <==>
                        && r.probed && !input.probe.ProbeOk?
                        && (input.probe.ProbeUnauthorized? || s.health.failures >= 4)))
            && (s.connection.None? && s.lastError > ZERO_TIME ==>
                  (r.attempted <==> s.lastError + 30_000_000_000 <= input.connectCheck))
            && (r.probed && input.probe.ProbeUnauthorized? ==> r.durations == [1_000_000])
  {
  }

  /** With intervals of a microsecond, which no built configuration has, an unauthorized probe asks for a wait of a
      thousand of them. */
  lemma WaitCanExceedShortIntervals(s: Locked<nat>, input: Input<nat>)
    requires s.connection.Some? && s.health.lastProbe == 1 && input.probeCheck == 5000 && input.probe.ProbeUnauthorized?
    ensures ReconcileReady(Config(1000, 1000, 1000, 5), s, input).durations == [1000 * 1000]
  {
  }

  /** A reconcile past the gate asks to be woken after a positive time, no longer than the larger interval (or a
      millisecond, after an unauthorized probe), and the next reconcile past the gate that is not earlier than
      asked for, whatever happens in between, attempts a connect or probes: it does not wait again. */
  lemma Progress<C>(config: Config, t: Timed<C>, first: Input<C>, between: seq<Tick<C>>, second: Input<C>)
    requires 0 < config.retryInterval && 0 < config.probeInterval
    requires TimedInv(config, t) && Ordered(first, t.clock)
    requires var t1 := After(config, t, Ready(first));
             && AllPossible(config, t1, between) && (forall tick <- between :: Quiet(tick))
             && Ordered(second, RunTicks(config, t1, between).clock)
    ensures var r := ReconcileReady(config, t.state, first);
            var r' := ReconcileReady(config, RunTicks(config, After(config, t, Ready(first)), between).state, second);
            && |r.durations| == 1
            && 0 < r.durations[0] <= Max(MILLISECOND, Max(config.retryInterval, config.probeInterval))
            && (first.eventsAt + r.durations[0] <= second.connectCheck ==> r'.attempted || r'.probed)
  {
    WokenWhenDue(config, t, first);
    var t1 := After(config, t, Ready(first));
    var s2 := RunTicks(config, t1, between).state;
    QuietTicksChangeNothing(config, t1, between);
    if first.eventsAt + ReconcileReady(config, t.state, first).durations[0] <= second.connectCheck {
      assert DueAt(config, s2, second.connectCheck);
      DueMeansAction(config, s2, second);
    }
  }

  /** After an unauthorized probe there is no connection, and the last failed connect is long past. */
  lemma UnauthorizedLeavesOldError<C>(config: Config, t: Timed<C>, input: Input<C>)
    requires TimedInv(config, t) && Ordered(input, t.clock)
    requires ReconcileReady(config, t.state, input).probed && input.probe.ProbeUnauthorized?
    ensures var t' := After(config, t, Ready(input));
            && t'.state.connection.None?
            && (t'.state.lastError == ZERO_TIME || t'.state.lastError + config.retryInterval <= t'.clock)
  {
    var t' := After(config, t, Ready(input));
    ReadyKeepsInv(config, t, input);
    assert t'.history[|t'.history|-1] == Probe(input.probeCheck, input.probeEnd, input.probe);
    assert Untroubled(t'.history);
  }

  lemma OldErrorMeansAttempt<C>(config: Config, s: Locked<C>, input: Input<C>)
    requires s.connection.None?
    requires s.lastError == ZERO_TIME || s.lastError + config.retryInterval <= input.connectCheck
    ensures ReconcileReady(config, s, input).attempted
  {
  }

  /** After an unauthorized probe the next reconcile past the gate attempts a connect at once, however early. */
  lemma UnauthorizedIsNeverThrottled<C>(
    config: Config, t: Timed<C>, first: Input<C>, between: seq<Tick<C>>, second: Input<C>)
    requires TimedInv(config, t) && Ordered(first, t.clock)
    requires ReconcileReady(config, t.state, first).probed && first.probe.ProbeUnauthorized?
    requires var t1 := After(config, t, Ready(first));
             && AllPossible(config, t1, between) && (forall tick <- between :: Quiet(tick))
             && Ordered(second, RunTicks(config, t1, between).clock)
    ensures var t2 := RunTicks(config, After(config, t, Ready(first)), between);
            ReconcileReady(config, t2.state, second).attempted
  {
    UnauthorizedLeavesOldError(config, t, first);
    var t1 := After(config, t, Ready(first));
    QuietTicksChangeNothing(config, t1, between);
    OldErrorMeansAttempt(config, RunTicks(config, t1, between).state, second);
  }
}
