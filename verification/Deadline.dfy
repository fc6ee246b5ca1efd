/** How long a connection can outlive its last successful probe. The manager enforces a grace period of two
    minutes on the strength of this bound. */
module Deadline {
  import opened Base
  import opened LockedState
  import opened Reconcile

  /** A reconcile of a connected accessor, or a reader that adds a watch in between. `wake` is how late the reconcile
      checks, after the instant it asked to be woken; `end` is when it has recorded its probe and dropped the
      connection if it had to; `work` is the time up to `end` that the probe itself did not take. */
  datatype Cycle<+C> =
    | Cycle(input: Input<C>, wake: int, work: int, end: Time)
    | Watched(name: string, starts: bool)

  function AfterCycle<C>(config: Config, s: Locked<C>, c: Cycle<C>): Locked<C> {
    match c
    case Cycle(input, _, _, _) => ReconcileReady(config, s, input).state
    case Watched(name, starts) => Watch(s, name, starts).0
  }

  /** The instant a reconcile asked to be woken: the duration it returned, counted from the reading of the clock
      that the duration was computed from. */
  function WakeUp<C>(config: Config, s: Locked<C>, input: Input<C>): Time {
    var r := ReconcileReady(config, s, input);
    (if r.probed then input.probeEnd else input.probeCheck) + (if r.durations == [] then 0 else r.durations[0])
  }

  /** The hypothesis on one reconcile: it checks no later than `wake` after the wake-up asked for, its probe takes at
      most the timeout, and all its other delays add up to at most `delta`. */
  predicate TimelyCycle<C>(config: Config, delta: int, s: Locked<C>, clock: Time, wakeUp: Time, c: Cycle<C>)
    requires c.Cycle?
  {
    var probed := ReconcileReady(config, s, c.input).probed;
    && Ordered(c.input, clock)
    && 0 <= c.wake && 0 <= c.work && c.wake + c.work <= delta
    && c.input.probeCheck <= wakeUp + c.wake
    && (probed ==> c.input.probeEnd <= c.end)
    && c.end <= c.input.probeCheck + (if probed then config.probeTimeout else 0) + c.work
  }

  /** The scheduling hypothesis, for as long as the connection is up. Extra, earlier reconciles are allowed. */
  predicate Timely<C>(config: Config, delta: int, s: Locked<C>, clock: Time, wakeUp: Time, cycles: seq<Cycle<C>>)
    decreases cycles
  {
    cycles == [] || s.connection.None? ||
    match cycles[0]
    case Watched(_, _) => Timely(config, delta, AfterCycle(config, s, cycles[0]), clock, wakeUp, cycles[1..])
    case Cycle(input, _, _, _) =>
      && TimelyCycle(config, delta, s, clock, wakeUp, cycles[0])
      && Timely(config, delta, AfterCycle(config, s, cycles[0]), input.eventsAt, WakeUp(config, s, input), cycles[1..])
  }

  function StateAfter<C>(config: Config, s: Locked<C>, cycles: seq<Cycle<C>>): Locked<C>
    decreases cycles
  {
    if cycles == [] then s else StateAfter(config, AfterCycle(config, s, cycles[0]), cycles[1..])
  }

  /** The connection of `s` is still the one in use after `cycles`. */
  predicate StillUp<C>(config: Config, s: Locked<C>, cycles: seq<Cycle<C>>)
    decreases cycles
  {
    s.connection.Some? && (cycles == [] || StillUp(config, AfterCycle(config, s, cycles[0]), cycles[1..]))
  }

  predicate AllProbesFail<C>(cycles: seq<Cycle<C>>) {
    forall i :: 0 <= i < |cycles| && cycles[i].Cycle? ==> !cycles[i].input.probe.ProbeOk?
  }

  /** The longest a cycle can take. */
  function CycleBound(config: Config, delta: int): int {
    config.probeInterval + config.probeTimeout + delta
  }

  function DropBy(config: Config, delta: int, lastSuccess: Time): Time {
    lastSuccess + config.failureThreshold * CycleBound(config, delta)
  }

  /** The bound so far: with `failures` failed probes, the last of them ended within that many cycles. */
  predicate OnSchedule<C>(config: Config, delta: int, s: Locked<C>, lastSuccess: Time) {
    && s.connection.Some?
    && s.health.lastProbe > ZERO_TIME
    && s.health.failures < config.failureThreshold
    && s.health.lastSuccess == lastSuccess
    && s.health.lastProbe <= lastSuccess + s.health.failures * CycleBound(config, delta)
  }

  /** Every reconcile that connects, or probes successfully, and keeps the connection, starts the clock: it asks to be
      woken one probe interval after its last contact. If it connects and then probes in vain, that probe has ended
      within a cycle of the connect. */
  lemma SuccessStartsTheClock<C>(config: Config, delta: int, s: Locked<C>, input: Input<C>)
    requires Ordered(input, ZERO_TIME) && 1 <= config.failureThreshold
    requires var r := ReconcileReady(config, s, input);
             && r.state.connection.Some?
             && (|| (r.probed && input.probe.ProbeOk?)
                 || (r.didConnect && (r.probed ==> input.probeEnd <= input.connectEnd + CycleBound(config, delta))))
    ensures var s' := ReconcileReady(config, s, input).state;
            && OnSchedule(config, delta, s', s'.health.lastSuccess)
            && WakeUp(config, s, input) == s'.health.lastProbe + config.probeInterval
  {
  }

  lemma OneMoreCycle(failures: nat, threshold: int, bound: int)
    requires failures < threshold && 0 <= bound
    ensures failures * bound + bound == (failures + 1) * bound <= threshold * bound
  {
    var left := threshold - failures - 1;
    assert left * bound >= 0;
    assert threshold * bound == (left + (failures + 1)) * bound == left * bound + (failures + 1) * bound;
  }

  /** What a reconcile of a connected accessor with a failing probe does. */
  lemma FailingCycle<C>(config: Config, s: Locked<C>, input: Input<C>)
    requires s.connection.Some? && s.health.lastProbe > ZERO_TIME && !input.probe.ProbeOk?
    ensures var r := ReconcileReady(config, s, input);
            && (r.probed <==> s.health.lastProbe + config.probeInterval <= input.probeCheck)
            && r.state.health == (if !r.probed then s.health
                                  else s.health.(lastProbe := input.probeEnd, failures := s.health.failures + 1))
            && (r.state.connection.Some? && r.probed ==> s.health.failures + 1 < config.failureThreshold)
            && (r.state.connection.Some? ==>
                  WakeUp(config, s, input) == r.state.health.lastProbe + config.probeInterval)
  {
  }

  lemma CycleKeepsSchedule<C>(config: Config, delta: int, s: Locked<C>, clock: Time, c: Cycle<C>, lastSuccess: Time)
    requires 0 <= CycleBound(config, delta) && 0 <= config.probeTimeout
    requires c.Cycle? && OnSchedule(config, delta, s, lastSuccess) && !c.input.probe.ProbeOk?
    requires TimelyCycle(config, delta, s, clock, s.health.lastProbe + config.probeInterval, c)
    ensures c.end <= DropBy(config, delta, lastSuccess)
    ensures var s' := AfterCycle(config, s, c);
            s'.connection.Some? ==>
              && OnSchedule(config, delta, s', lastSuccess)
              && WakeUp(config, s, c.input) == s'.health.lastProbe + config.probeInterval
  {
    FailingCycle(config, s, c.input);
    OneMoreCycle(s.health.failures, config.failureThreshold, CycleBound(config, delta));
  }

  function ClockAfter<C>(c: Cycle<C>, clock: Time): Time {
    if c.Cycle? then c.input.eventsAt else clock
  }

  /** One step along a timely run. */
  lemma StepKeepsSchedule<C>(
    config: Config, delta: int, s: Locked<C>, clock: Time, cycles: seq<Cycle<C>>, lastSuccess: Time)
    requires 0 <= CycleBound(config, delta) && 0 <= config.probeTimeout
    requires OnSchedule(config, delta, s, lastSuccess) && cycles != [] && AllProbesFail(cycles)
    requires Timely(config, delta, s, clock, s.health.lastProbe + config.probeInterval, cycles)
    ensures cycles[0].Cycle? ==> cycles[0].end <= DropBy(config, delta, lastSuccess)
    ensures var s' := AfterCycle(config, s, cycles[0]);
            s'.connection.Some? ==>
              && OnSchedule(config, delta, s', lastSuccess) && AllProbesFail(cycles[1..])
              && Timely(config, delta, s', ClockAfter(cycles[0], clock), s'.health.lastProbe + config.probeInterval,
                        cycles[1..])
  {
    if cycles[0].Cycle? {
      CycleKeepsSchedule(config, delta, s, clock, cycles[0], lastSuccess);
    }
  }

  /** As long as the connection is up, the run is on schedule. */
  lemma {:induction false} ScheduleIsKept<C>(
    config: Config, delta: int, s: Locked<C>, clock: Time, cycles: seq<Cycle<C>>, lastSuccess: Time)
    requires 0 <= CycleBound(config, delta) && 0 <= config.probeTimeout
    requires OnSchedule(config, delta, s, lastSuccess) && AllProbesFail(cycles)
    requires Timely(config, delta, s, clock, s.health.lastProbe + config.probeInterval, cycles)
    requires StillUp(config, s, cycles)
    ensures OnSchedule(config, delta, StateAfter(config, s, cycles), lastSuccess)
    decreases cycles
  {
    if cycles == [] {
    } else {
      StepKeepsSchedule(config, delta, s, clock, cycles, lastSuccess);
      var s' := AfterCycle(config, s, cycles[0]);
      ScheduleIsKept(config, delta, s', ClockAfter(cycles[0], clock), cycles[1..], lastSuccess);
    }
  }

  /** A reconcile that finds the connection up ends by the deadline. */
  lemma {:induction false} EndsByDeadline<C>(
    config: Config, delta: int, s: Locked<C>, clock: Time, cycles: seq<Cycle<C>>, lastSuccess: Time, i: nat)
    requires 0 <= CycleBound(config, delta) && 0 <= config.probeTimeout
    requires OnSchedule(config, delta, s, lastSuccess) && AllProbesFail(cycles)
    requires Timely(config, delta, s, clock, s.health.lastProbe + config.probeInterval, cycles)
    requires i < |cycles| && cycles[i].Cycle? && StillUp(config, s, cycles[..i])
    ensures cycles[i].end <= DropBy(config, delta, lastSuccess)
    decreases i
  {
    StepKeepsSchedule(config, delta, s, clock, cycles, lastSuccess);
    if i == 0 {
    } else {
      var s', rest := AfterCycle(config, s, cycles[0]), cycles[1..];
      assert cycles[..i][0] == cycles[0] && cycles[..i][1..] == rest[..i-1];
      assert StillUp(config, s', rest[..i-1]);
      EndsByDeadline(config, delta, s', ClockAfter(cycles[0], clock), rest, lastSuccess, i - 1);
    }
  }

  /** The drop deadline. After a success at `S`, in every timely run in which all probes fail, each reconcile that
      still finds the connection, and so the one that drops it, has ended by
      `S + threshold * (interval + timeout + delta)`; and as long as the connection is up, the probe that is due
      next, delayed as much as it can be, still ends by then. Early reconciles do not weaken the bound. */
  lemma DropDeadline<C>(config: Config, delta: int, s: Locked<C>, clock: Time, cycles: seq<Cycle<C>>)
    requires 0 <= delta && 0 <= config.probeInterval && 0 <= config.probeTimeout
    requires OnSchedule(config, delta, s, s.health.lastSuccess) && AllProbesFail(cycles)
    requires Timely(config, delta, s, clock, s.health.lastProbe + config.probeInterval, cycles)
    ensures var deadline := DropBy(config, delta, s.health.lastSuccess);
            && (forall i :: 0 <= i < |cycles| && cycles[i].Cycle? && StillUp(config, s, cycles[..i]) ==>
                  cycles[i].end <= deadline)
            && (StillUp(config, s, cycles) ==>
                  StateAfter(config, s, cycles).health.lastProbe + CycleBound(config, delta) <= deadline)
  {
    forall i: nat | i < |cycles| && cycles[i].Cycle? && StillUp(config, s, cycles[..i])
      ensures cycles[i].end <= DropBy(config, delta, s.health.lastSuccess)
    {
      EndsByDeadline(config, delta, s, clock, cycles, s.health.lastSuccess, i);
    }
    if StillUp(config, s, cycles) {
      ScheduleIsKept(config, delta, s, clock, cycles, s.health.lastSuccess);
      OneMoreCycle(StateAfter(config, s, cycles).health.failures, config.failureThreshold, CycleBound(config, delta));
    }
  }

  /** The run is timely up to `now`: if the connection is up, its next cycle is not overdue. */
  predicate NotOverdue<C>(config: Config, delta: int, s: Locked<C>, cycles: seq<Cycle<C>>, now: Time) {
    StillUp(config, s, cycles) ==> now <= StateAfter(config, s, cycles).health.lastProbe + CycleBound(config, delta)
  }

  /** A connection whose probes all fail is gone after the deadline. */
  lemma ConnectionIsDropped<C>(
    config: Config, delta: int, s: Locked<C>, clock: Time, cycles: seq<Cycle<C>>, now: Time)
    requires 0 <= delta && 0 <= config.probeInterval && 0 <= config.probeTimeout
    requires OnSchedule(config, delta, s, s.health.lastSuccess) && AllProbesFail(cycles)
    requires Timely(config, delta, s, clock, s.health.lastProbe + config.probeInterval, cycles)
    requires NotOverdue(config, delta, s, cycles, now)
    ensures DropBy(config, delta, s.health.lastSuccess) < now ==> !StillUp(config, s, cycles)
  {
    DropDeadline(config, delta, s, clock, cycles);
  }

  const GRACE_PERIOD: int := 120 * SECOND

  /** With the built-in configuration the enforced grace period of two minutes is longer than the bound exactly when
      the scheduling delays of a cycle stay below nine seconds; without delays the bound is 75s. */
  lemma GracePeriodSuffices(delta: int, lastSuccess: Time)
    ensures DropBy(DEFAULT_CONFIG, delta, lastSuccess) < lastSuccess + GRACE_PERIOD <==> delta < 9 * SECOND
    ensures DropBy(DEFAULT_CONFIG, 0, lastSuccess) == lastSuccess + 75 * SECOND
  {
  }

  /** So with delays below nine seconds a connection whose probes all fail is always gone when the grace period since
      the last success has passed. */
  lemma DroppedWithinGracePeriod<C>(delta: int, s: Locked<C>, clock: Time, cycles: seq<Cycle<C>>, now: Time)
    requires 0 <= delta < 9 * SECOND
    requires OnSchedule(DEFAULT_CONFIG, delta, s, s.health.lastSuccess) && AllProbesFail(cycles)
    requires Timely(DEFAULT_CONFIG, delta, s, clock, s.health.lastProbe + DEFAULT_CONFIG.probeInterval, cycles)
    requires NotOverdue(DEFAULT_CONFIG, delta, s, cycles, now)
    ensures s.health.lastSuccess + GRACE_PERIOD <= now ==> !StillUp(DEFAULT_CONFIG, s, cycles)
  {
    ConnectionIsDropped(DEFAULT_CONFIG, delta, s, clock, cycles, now);
    GracePeriodSuffices(delta, s.health.lastSuccess);
  }

  // ----- The bound is attained -----

  /** A connection whose last contact with the API server succeeded. */
  predicate JustSucceeded<C>(s: Locked<C>) {
    s.connection.Some? && s.health.failures == 0 && s.health.lastProbe == s.health.lastSuccess > ZERO_TIME
  }

  /** The slowest timely cycle: woken as late as allowed, with a probe that takes the whole timeout and fails. */
  function SlowestCycle<C>(config: Config, delta: int, s: Locked<C>): (c: Cycle<C>)
    ensures c.Cycle? && !c.input.probe.ProbeOk?
  {
    var check := s.health.lastProbe + config.probeInterval + delta;
    var end := check + config.probeTimeout;
    Cycle(Input(check, NotBuilt, None, check, check, ProbeFailed, end, end), delta, 0, end)
  }

  function SlowestRun<C>(config: Config, delta: int, s: Locked<C>, n: nat): seq<Cycle<C>>
    decreases n
  {
    if n == 0 then [] else
      var c := SlowestCycle(config, delta, s);
      [c] + SlowestRun(config, delta, AfterCycle(config, s, c), n - 1)
  }

  lemma SlowestCycleIsTimely<C>(config: Config, delta: int, s: Locked<C>)
    requires 0 <= delta && 0 < config.probeInterval && 0 <= config.probeTimeout
    requires s.connection.Some? && s.health.lastProbe > ZERO_TIME && s.health.failures < config.failureThreshold
    ensures var c := SlowestCycle(config, delta, s);
            var s' := AfterCycle(config, s, c);
            && TimelyCycle(config, delta, s, s.health.lastProbe, s.health.lastProbe + config.probeInterval, c)
            && c.end == s'.health.lastProbe == c.input.eventsAt == s.health.lastProbe + CycleBound(config, delta)
            && s'.health.failures == s.health.failures + 1
            && (s'.connection.Some? <==> s'.health.failures < config.failureThreshold)
            && (s'.connection.Some? ==> WakeUp(config, s, c.input) == s'.health.lastProbe + config.probeInterval)
  {
  }

  /** A state from which the slowest run takes `n` cycles. */
  predicate CyclesLeft<C>(config: Config, delta: int, s: Locked<C>, n: nat) {
    && 0 <= delta && 0 < config.probeInterval && 0 <= config.probeTimeout && n >= 1
    && s.connection.Some? && s.health.lastProbe > ZERO_TIME && s.health.failures + n == config.failureThreshold
  }

  lemma {:induction false} SlowestRunIsTimely<C>(config: Config, delta: int, s: Locked<C>, n: nat)
    requires CyclesLeft(config, delta, s, n)
    ensures var run := SlowestRun(config, delta, s, n);
            && |run| == n && AllProbesFail(run)
            && Timely(config, delta, s, s.health.lastProbe, s.health.lastProbe + config.probeInterval, run)
    decreases n
  {
    var run := SlowestRun(config, delta, s, n);
    SlowestCycleIsTimely(config, delta, s);
    var s' := AfterCycle(config, s, run[0]);
    assert run[1..] == SlowestRun(config, delta, s', n - 1);
    if n == 1 {
    } else {
      SlowestRunIsTimely(config, delta, s', n - 1);
    }
  }

  lemma {:induction false} SlowestRunDropsLast<C>(config: Config, delta: int, s: Locked<C>, n: nat)
    requires CyclesLeft(config, delta, s, n)
    ensures var run := SlowestRun(config, delta, s, n);
            |run| == n && StillUp(config, s, run[..n-1]) && !StillUp(config, s, run)
    decreases n
  {
    var run := SlowestRun(config, delta, s, n);
    SlowestCycleIsTimely(config, delta, s);
    var s' := AfterCycle(config, s, run[0]);
    assert run[1..] == SlowestRun(config, delta, s', n - 1);
    if n == 1 {
      assert run[..n-1] == [];
    } else {
      SlowestRunDropsLast(config, delta, s', n - 1);
      assert run[..n-1][1..] == run[1..][..n-2];
    }
  }

  lemma {:induction false} SlowestRunEnds<C>(config: Config, delta: int, s: Locked<C>, n: nat)
    requires CyclesLeft(config, delta, s, n)
    ensures var run := SlowestRun(config, delta, s, n);
            |run| == n && run[n-1].Cycle? && run[n-1].end == s.health.lastProbe + n * CycleBound(config, delta)
    decreases n
  {
    var run := SlowestRun(config, delta, s, n);
    SlowestCycleIsTimely(config, delta, s);
    var s' := AfterCycle(config, s, run[0]);
    if n == 1 {
    } else {
      SlowestRunEnds(config, delta, s', n - 1);
      assert run[n-1] == SlowestRun(config, delta, s', n - 1)[n-2];
      OneMoreCycle(n - 1, n, CycleBound(config, delta));
    }
  }

  /** No smaller bound holds: from every success there is a timely run, with exactly as many failed probes as the
      threshold, whose last reconcile finds the connection, drops it and ends at the deadline. */
  lemma DeadlineIsAttained<C>(config: Config, delta: int, s: Locked<C>)
    requires 0 <= delta && 0 < config.probeInterval && 0 <= config.probeTimeout && 1 <= config.failureThreshold
    requires JustSucceeded(s)
    ensures var n := config.failureThreshold;
            var run := SlowestRun(config, delta, s, n);
            && |run| == n && AllProbesFail(run) && run[n-1].Cycle?
            && Timely(config, delta, s, s.health.lastProbe, s.health.lastProbe + config.probeInterval, run)
            && StillUp(config, s, run[..n-1]) && !StillUp(config, s, run)
            && run[n-1].end == DropBy(config, delta, s.health.lastSuccess)
  {
    SlowestRunIsTimely(config, delta, s, config.failureThreshold);
    SlowestRunDropsLast(config, delta, s, config.failureThreshold);
    SlowestRunEnds(config, delta, s, config.failureThreshold);
  }

  /** Nine seconds is the exact limit: with larger delays, after every success there is a timely run in which all
      probes fail and the connection is dropped no earlier than the end of the grace period. */
  lemma GracePeriodCanBeMissed<C>(delta: int, s: Locked<C>)
    requires 9 * SECOND <= delta && JustSucceeded(s)
    ensures var run := SlowestRun(DEFAULT_CONFIG, delta, s, 5);
            && |run| == 5 && AllProbesFail(run) && run[4].Cycle?
            && Timely(DEFAULT_CONFIG, delta, s, s.health.lastProbe,
                      s.health.lastProbe + DEFAULT_CONFIG.probeInterval, run)
            && StillUp(DEFAULT_CONFIG, s, run[..4])
            && s.health.lastSuccess + GRACE_PERIOD <= run[4].end
  {
    DeadlineIsAttained(DEFAULT_CONFIG, delta, s);
    GracePeriodSuffices(delta, s.health.lastSuccess);
  }
}
