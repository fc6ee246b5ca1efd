/** One reconcile of the cluster cache for a Cluster that is readable and whose infrastructure is ready:
    connect or wait, then probe or wait, then ask to be woken. Every reading of the clock is an input. */
module Reconcile {
  import opened Base
  import opened LockedState

  const DEFAULT_REQUEUE_AFTER: int := 10 * SECOND

  /** How long to wait before acting again, or false to act now. An action that never happened never waits. */
  function ShouldRequeue(now: Time, last: Time, interval: int): (int, bool) {
    if last == ZERO_TIME then (0, false)
    else if now - last < interval then (interval - (now - last), true)
    else (0, false)
  }

  /** `d` is the least of `durations`, or `default` if there is none. */
  ghost predicate IsMinOrDefault(durations: seq<int>, default: int, d: int) {
    if durations == [] then d == default else d in durations && forall x <- durations :: d <= x
  }

  method MinDurationOrDefault(durations: seq<int>, default: int) returns (d: int)
    ensures IsMinOrDefault(durations, default, d)
  {
    if |durations| == 0 {
      return default;
    }
    d := durations[0];
    var i := 1;
    while i < |durations|
      invariant 1 <= i <= |durations|
      invariant d in durations[..i] && forall x <- durations[..i] :: d <= x
    {
      if durations[i] < d {
        d := durations[i];
      }
      i := i + 1;
      assert durations[..i] == durations[..i-1] + [durations[i-1]];
    }
    assert durations[..i] == durations;
  }

  /** The answers the outside world gives to one reconcile, and its five readings of the clock in order: before
      deciding to connect, at the end of the connect, before deciding to probe, at the end of the probe, and
      before sending events. Answers to questions that are not asked are ignored. */
  datatype Input<+C> = Input(
    connectCheck: Time, built: Built<C>, generated: Option<nat>, connectEnd: Time,
    probeCheck: Time, probe: ProbeOutcome, probeEnd: Time,
    eventsAt: Time)

  predicate Ordered<C>(input: Input<C>, clock: Time) {
    && clock <= input.connectCheck <= input.connectEnd <= input.probeCheck <= input.probeEnd <= input.eventsAt
    && ZERO_TIME < input.connectCheck
  }

  datatype Report<+C> = Report(
    state: Locked<C>, attempted: bool, didConnect: bool, probed: bool, didDisconnect: bool, durations: seq<int>)

  /** Try to connect, if not connected. */
  function ConnectPhase<C>(config: Config, s: Locked<C>, input: Input<C>): Report<C> {
    if s.connection.Some? then Report(s, false, false, false, false, []) else
      var (wait, throttled) := ShouldRequeue(input.connectCheck, s.lastError, config.retryInterval);
      if throttled then Report(s, false, false, false, false, [wait]) else
        var (s', err) := Connect(s, input.built, input.generated, input.connectEnd);
        if err.Some? then Report(s', true, false, false, false, [config.retryInterval])
        else Report(s', true, true, false, false, [])
  }

  /** Run the health probe, if connected. */
  function ProbePhase<C>(config: Config, r: Report<C>, input: Input<C>): Report<C> {
    var (wait, throttled) := ShouldRequeue(input.probeCheck, r.state.health.lastProbe, config.probeInterval);
    if throttled then r.(durations := r.durations + [wait]) else
      var (s, tooMany, unauthorized) := HealthCheck(config, r.state, input.probe, input.probeEnd);
      var drop := tooMany || unauthorized;
      var wait' := if unauthorized then MILLISECOND else if tooMany then config.retryInterval else config.probeInterval;
      r.(state := if drop then Disconnect(s) else s, probed := true, didDisconnect := drop,
         durations := r.durations + [wait'])
  }

  function ReconcileReady<C>(config: Config, s: Locked<C>, input: Input<C>): Report<C> {
    var r := ConnectPhase(config, s, input);
    if s.connection.Some? || r.didConnect then ProbePhase(config, r, input) else r
  }

  // ----- What a reconcile decides, said in terms of the answers it got -----

  /** A connected accessor before and after a reconcile: nothing happens while the last contact is less than the probe
      interval ago; else the outcome of the probe decides about the health, the connection and the wait. */
  ghost predicate ProbeDecides<C>(
    config: Config, s: Locked<C>, probeCheck: Time, probe: ProbeOutcome, probeEnd: Time,
    s': Locked<C>, wait: int, didDisconnect: bool)
  {
    var last := s.health.lastProbe;
    if last != ZERO_TIME && probeCheck < last + config.probeInterval then
      s' == s && !didDisconnect && wait == last + config.probeInterval - probeCheck
    else
      && s'.lastError == s.lastError && s'.privateKey == s.privateKey
      && (match probe
          case ProbeOk =>
            && s'.health == Health(probeEnd, probeEnd, 0)
            && (didDisconnect <==> config.failureThreshold <= 0)
          case ProbeFailed =>
            && s'.health == Health(probeEnd, s.health.lastSuccess, s.health.failures + 1)
            && (didDisconnect <==> config.failureThreshold <= s.health.failures + 1)
          case ProbeUnauthorized =>
            && s'.health == Health(probeEnd, s.health.lastSuccess, s.health.failures + 1)
            && didDisconnect)
      && s'.connection == (if didDisconnect then None else s.connection)
      && wait == (if probe.ProbeUnauthorized? then MILLISECOND
                  else if didDisconnect then config.retryInterval else config.probeInterval)
  }

  /** A disconnected accessor before and after a reconcile: it waits while the last failure is less than the retry
      interval ago; else a failed attempt is stamped, and a successful one is installed, fresh, and may be probed. */
  ghost predicate ConnectDecides<C>(
    config: Config, s: Locked<C>, connectCheck: Time, built: Built<C>, generated: Option<nat>, connectEnd: Time,
    probeCheck: Time, probe: ProbeOutcome, probeEnd: Time,
    s': Locked<C>, wait: int, didConnect: bool, didDisconnect: bool)
  {
    if s.lastError != ZERO_TIME && connectCheck < s.lastError + config.retryInterval then
      s' == s && !didConnect && !didDisconnect && wait == s.lastError + config.retryInterval - connectCheck
    else if built.NotBuilt? || (s.privateKey.None? && generated.None?) then
      s' == s.(lastError := connectEnd) && !didConnect && !didDisconnect && wait == config.retryInterval
    else
      var key := if s.privateKey.Some? then s.privateKey else generated;
      var c := Connection(built.restConfig, built.restClient, built.cachedClient, built.cache, {});
      && didConnect
      && ProbeDecides(config, Locked(s.lastError, Some(c), key, Health(connectEnd, connectEnd, 0)),
                      probeCheck, probe, probeEnd, s', wait, didDisconnect)
  }

  /** The reconcile decides so. */
  lemma ReconcileDecides<C>(config: Config, s: Locked<C>, input: Input<C>)
    ensures var r := ReconcileReady(config, s, input);
            && |r.durations| == 1
            && (if s.connection.Some? then
                  && !r.didConnect
                  && ProbeDecides(config, s, input.probeCheck, input.probe, input.probeEnd,
                                  r.state, r.durations[0], r.didDisconnect)
                else
                  ConnectDecides(config, s, input.connectCheck, input.built, input.generated, input.connectEnd,
                                 input.probeCheck, input.probe, input.probeEnd,
                                 r.state, r.durations[0], r.didConnect, r.didDisconnect))
  {
  }

  /** Every reconcile past the readiness gate collects exactly one duration, so the fallback is never used. */
  lemma ExactlyOneDuration<C>(config: Config, s: Locked<C>, input: Input<C>, d: int)
    requires IsMinOrDefault(ReconcileReady(config, s, input).durations, DEFAULT_REQUEUE_AFTER, d)
    ensures ReconcileReady(config, s, input).durations == [d]
  {
    var durations := ReconcileReady(config, s, input).durations;
    assert |durations| == 1 && durations[0] in durations;
  }
}
