/** When a source of Cluster events is told about a cluster: on connect, on disconnect, and when the health probe
    has not succeeded for a configured duration. The only memory is the time of the last event per cluster. */
module Notify {
  import opened Base

  datatype Reason = Connect | Disconnect | ProbeFailure(duration: int)

  /** The instant `lastSuccess + d` has passed and no event was sent since. */
  predicate FailureDue(now: Time, lastSuccess: Time, lastSent: Time, d: int) {
    lastSent < lastSuccess + d < now
  }

  function FailureReasons(now: Time, lastSuccess: Time, lastSent: Time, durations: seq<int>): seq<Reason> {
    if durations == [] then [] else
      var d := durations[|durations|-1];
      FailureReasons(now, lastSuccess, lastSent, durations[..|durations|-1])
      + if FailureDue(now, lastSuccess, lastSent, d) then [ProbeFailure(d)] else []
  }

  function Reasons(
    now: Time, lastSuccess: Time, lastSent: Time, didConnect: bool, didDisconnect: bool, durations: seq<int>)
    : seq<Reason>
  {
    (if didConnect then [Connect] else []) + (if didDisconnect then [Disconnect] else [])
    + FailureReasons(now, lastSuccess, lastSent, durations)
  }

  method ShouldSendEvent(
    now: Time, lastSuccess: Time, lastSent: Time, didConnect: bool, didDisconnect: bool, durations: seq<int>)
    returns (reasons: seq<Reason>)
    ensures reasons == Reasons(now, lastSuccess, lastSent, didConnect, didDisconnect, durations)
  {
    reasons := [];
    if didConnect {
      reasons := reasons + [Connect];
    }
    if didDisconnect {
      reasons := reasons + [Disconnect];
    }
    ghost var changes := reasons;
    if |durations| > 0 {
      var i := 0;
      while i < |durations|
        invariant 0 <= i <= |durations|
        invariant reasons == changes + FailureReasons(now, lastSuccess, lastSent, durations[..i])
      {
        var shouldSendAt := lastSuccess + durations[i];
        if lastSent < shouldSendAt && shouldSendAt < now {
          reasons := reasons + [ProbeFailure(durations[i])];
        }
        i := i + 1;
        assert durations[..i][..i-1] == durations[..i-1];
      }
      assert durations[..i] == durations;
    }
  }

  lemma {:induction false} ReasonsAreTheDueOnes(now: Time, lastSuccess: Time, lastSent: Time, durations: seq<int>)
    ensures forall r :: r in FailureReasons(now, lastSuccess, lastSent, durations) <==>
              r.ProbeFailure? && r.duration in durations && FailureDue(now, lastSuccess, lastSent, r.duration)
  {
    if durations == [] {
    } else {
      var n := |durations| - 1;
      assert durations == durations[..n] + [durations[n]];
      ReasonsAreTheDueOnes(now, lastSuccess, lastSent, durations[..n]);
    }
  }

  /** The reasons are those of connect, then of disconnect, then those of the durations, one after the other. */
  lemma {:induction false} ReasonsAreInOrder(now: Time, lastSuccess: Time, lastSent: Time, a: seq<int>, b: seq<int>)
    ensures FailureReasons(now, lastSuccess, lastSent, a + b) ==
              FailureReasons(now, lastSuccess, lastSent, a) + FailureReasons(now, lastSuccess, lastSent, b)
    ensures Reasons(now, lastSuccess, lastSent, true, true, a) ==
              [Connect, Disconnect] + FailureReasons(now, lastSuccess, lastSent, a)
    decreases b
  {
    if b == [] {
      assert a + b == a;
    } else {
      var n := |b| - 1;
      assert (a + b)[..|a + b|-1] == a + b[..n];
      ReasonsAreInOrder(now, lastSuccess, lastSent, a, b[..n]);
    }
  }

  // ----- One source and one cluster key over time -----

  /** An event that was sent, with the probe success time it was computed from and the lifetime of the Cluster. */
  datatype Sent = Sent(at: Time, lastSuccess: Time, reasons: seq<Reason>, lifetime: nat)

  /** `lastSent` is the remembered time, zero if none; `born` is when the key was last forgotten. */
  datatype Memory = Memory(lastSent: Time, clock: Time, lifetime: nat, born: Time, log: seq<Sent>)

  datatype Happening =
    | EventStep(now: Time, lastSuccess: Time, didConnect: bool, didDisconnect: bool)
    | Forget(at: Time)                                          // the Cluster is gone

  const NO_MEMORY := Memory(ZERO_TIME, ZERO_TIME, 0, ZERO_TIME, [])

  /** The clock does not run backwards, and a probe success, if any, is one of the Cluster's present lifetime. */
  predicate Possible(m: Memory, h: Happening) {
    match h
    case EventStep(now, lastSuccess, _, _) =>
      && m.clock <= now && ZERO_TIME < now
      && (lastSuccess == ZERO_TIME || m.born <= lastSuccess)
    case Forget(at) => m.clock <= at
  }

  function After(durations: seq<int>, m: Memory, h: Happening): Memory {
    match h
    case EventStep(now, lastSuccess, didConnect, didDisconnect) =>
      var reasons := Reasons(now, lastSuccess, m.lastSent, didConnect, didDisconnect, durations);
      if reasons == [] then m.(clock := now)
      else m.(lastSent := now, clock := now, log := m.log + [Sent(now, lastSuccess, reasons, m.lifetime)])
    case Forget(at) => m.(lastSent := ZERO_TIME, clock := at, lifetime := m.lifetime + 1, born := at)
  }

  function Run(durations: seq<int>, happenings: seq<Happening>): Memory {
    if happenings == [] then NO_MEMORY
    else After(durations, Run(durations, happenings[..|happenings|-1]), happenings[|happenings|-1])
  }

  predicate CanHappen(durations: seq<int>, happenings: seq<Happening>) {
    happenings == [] || (CanHappen(durations, happenings[..|happenings|-1])
                         && Possible(Run(durations, happenings[..|happenings|-1]), happenings[|happenings|-1]))
  }

  /** Every instant whose passing `earlier` reported is before every instant whose passing `later` reported. */
  ghost predicate ReportsBefore(earlier: Sent, later: Sent) {
    forall r <- earlier.reasons, r' <- later.reasons ::
      (r.ProbeFailure? && r'.ProbeFailure?
       && (earlier.lifetime == later.lifetime || (later.lastSuccess > ZERO_TIME && r'.duration >= 0)))
      ==> earlier.lastSuccess + r.duration < later.lastSuccess + r'.duration
  }

  /** The instants whose passing was reported increase strictly from event to event, within a lifetime and, for
      clusters that were connected and durations that are not negative, over all lifetimes. */
  ghost predicate ReportedInstantsIncrease(log: seq<Sent>) {
    forall i, j :: 0 <= i < j < |log| ==> ReportsBefore(log[i], log[j])
  }

  ghost predicate MemoryInv(m: Memory) {
    && ZERO_TIME <= m.born <= m.clock
    && ZERO_TIME <= m.lastSent <= m.clock
    && (m.lastSent > ZERO_TIME ==>
          m.log != [] && m.log[|m.log|-1].at == m.lastSent && m.log[|m.log|-1].lifetime == m.lifetime)
    && (forall s <- m.log :: s.lifetime <= m.lifetime && ZERO_TIME < s.at
          && (if s.lifetime == m.lifetime then m.born <= s.at <= m.lastSent else s.at <= m.born))
    && (forall s <- m.log, r <- s.reasons :: r.ProbeFailure? ==> ZERO_TIME < s.lastSuccess + r.duration < s.at)
  }

  lemma EventReasonsAreDue(durations: seq<int>, m: Memory, h: Happening)
    requires h.EventStep?
    ensures var reasons := Reasons(h.now, h.lastSuccess, m.lastSent, h.didConnect, h.didDisconnect, durations);
            && (forall r <- reasons :: 
                  (r.Connect? && h.didConnect) || (r.Disconnect? && h.didDisconnect) ||
                  (&& r.ProbeFailure? && r.duration in durations
                   && FailureDue(h.now, h.lastSuccess, m.lastSent, r.duration)))
            && (forall d <- durations :: FailureDue(h.now, h.lastSuccess, m.lastSent, d) ==> ProbeFailure(d) in reasons)
  {
    ReasonsAreTheDueOnes(h.now, h.lastSuccess, m.lastSent, durations);
  }

  lemma StepKeepsMemoryInv(durations: seq<int>, m: Memory, h: Happening)
    requires MemoryInv(m) && Possible(m, h)
    ensures MemoryInv(After(durations, m, h))
  {
    if h.EventStep? {
      EventReasonsAreDue(durations, m, h);
    }
  }

  lemma NewEventReportsLater(durations: seq<int>, m: Memory, h: Happening, earlier: Sent)
    requires MemoryInv(m) && Possible(m, h) && h.EventStep? && earlier in m.log
    ensures var reasons := Reasons(h.now, h.lastSuccess, m.lastSent, h.didConnect, h.didDisconnect, durations);
            ReportsBefore(earlier, Sent(h.now, h.lastSuccess, reasons, m.lifetime))
  {
    EventReasonsAreDue(durations, m, h);
  }

  lemma StepKeepsIncreasing(durations: seq<int>, m: Memory, h: Happening)
    requires MemoryInv(m) && Possible(m, h) && ReportedInstantsIncrease(m.log)
    ensures ReportedInstantsIncrease(After(durations, m, h).log)
  {
    if h.EventStep? {
      forall earlier <- m.log {
        NewEventReportsLater(durations, m, h, earlier);
      }
    }
  }

  lemma {:induction false} RunKeepsMemoryInv(durations: seq<int>, happenings: seq<Happening>)
    requires CanHappen(durations, happenings)
    ensures MemoryInv(Run(durations, happenings)) && ReportedInstantsIncrease(Run(durations, happenings).log)
  {
    if happenings == [] {
    } else {
      RunKeepsMemoryInv(durations, happenings[..|happenings|-1]);
      StepKeepsMemoryInv(durations, Run(durations, happenings[..|happenings|-1]), happenings[|happenings|-1]);
      StepKeepsIncreasing(durations, Run(durations, happenings[..|happenings|-1]), happenings[|happenings|-1]);
    }
  }

  /** Event `i` gives the failure reason for duration `d` and success time `success`. */
  predicate ReportedBy(m: Memory, i: nat, success: Time, d: int) {
    i < |m.log| && m.log[i].lastSuccess == success && ProbeFailure(d) in m.log[i].reasons
  }

  /** Non-repeating: within a lifetime of the Cluster the failure reason for one duration and one success time is
      given by at most one event. A second event can give it only in a later lifetime, and only if the cluster was
      never connected in either, or the duration is negative. */
  lemma FailureIsReportedAtMostOnce(
    durations: seq<int>, happenings: seq<Happening>, i: nat, j: nat, success: Time, d: int)
    requires CanHappen(durations, happenings) && i < j
    requires var m := Run(durations, happenings); ReportedBy(m, i, success, d) && ReportedBy(m, j, success, d)
    ensures var log := Run(durations, happenings).log;
            && log[i].lifetime != log[j].lifetime
            && ZERO_TIME < success + d && (success == ZERO_TIME || d < 0)
  {
    RunKeepsMemoryInv(durations, happenings);
    var log := Run(durations, happenings).log;
    assert ReportsBefore(log[i], log[j]);
  }

  /** Some run of a source has two events that give the reason. */
  ghost predicate Repeats(durations: seq<int>, happenings: seq<Happening>, i: nat, j: nat, success: Time, d: int) {
    && CanHappen(durations, happenings) && i < j
    && ReportedBy(Run(durations, happenings), i, success, d) && ReportedBy(Run(durations, happenings), j, success, d)
  }

  /** Report, forget, report: the steps of a Cluster that is created again. */
  function Recreated(first: Time, forgotten: Time, second: Time, success: Time): seq<Happening> {
    [EventStep(first, success, false, false), Forget(forgotten), EventStep(second, success, false, false)]
  }

  lemma OneMore(durations: seq<int>, happenings: seq<Happening>, h: Happening)
    requires CanHappen(durations, happenings) && Possible(Run(durations, happenings), h)
    ensures CanHappen(durations, happenings + [h])
    ensures Run(durations, happenings + [h]) == After(durations, Run(durations, happenings), h)
  {
    assert (happenings + [h])[..|happenings + [h]|-1] == happenings;
  }

  lemma RecreatedIsReportedAgain(first: Time, forgotten: Time, second: Time, success: Time, d: int)
    requires ZERO_TIME < first <= forgotten <= second
    requires ZERO_TIME < success + d < first && (success == ZERO_TIME || forgotten <= success)
    ensures Repeats([d], Recreated(first, forgotten, second, success), 0, 1, success, d)
  {
    var all := Recreated(first, forgotten, second, success);
    ReasonsAreTheDueOnes(first, success, ZERO_TIME, [d]);
    ReasonsAreTheDueOnes(second, success, ZERO_TIME, [d]);
    OneMore([d], [], all[0]);
    var m1 := Run([d], [] + [all[0]]);
    assert ReportedBy(m1, 0, success, d) && |m1.log| == 1;
    OneMore([d], [] + [all[0]], all[1]);
    OneMore([d], [] + [all[0]] + [all[1]], all[2]);
    assert [] + [all[0]] + [all[1]] + [all[2]] == all;
  }

  /** A Cluster that is never connected, deleted and created again is reported again, for every positive duration. */
  lemma NeverConnectedIsReportedAgain(d: int)
    requires d > 0
    ensures Repeats([d], Recreated(d + 1, d + 2, d + 3, ZERO_TIME), 0, 1, ZERO_TIME, d)
  {
    RecreatedIsReportedAgain(d + 1, d + 2, d + 3, ZERO_TIME, d);
  }

  /** Exactly when a failure can be reported twice: for a cluster that was never connected and a positive duration,
      or for a negative duration, whose instant lies before the success. */
  lemma FailureCanRepeatIff(success: Time, d: int)
    ensures (exists durations, happenings, i: nat, j: nat :: Repeats(durations, happenings, i, j, success, d)) <==>
              ZERO_TIME < success + d && (success == ZERO_TIME || d < 0)
  {
    if durations, happenings, i: nat, j: nat :| Repeats(durations, happenings, i, j, success, d) {
      FailureIsReportedAtMostOnce(durations, happenings, i, j, success, d);
    }
    if ZERO_TIME < success + d && (success == ZERO_TIME || d < 0) {
      var at := if success == ZERO_TIME then d + 1 else success;
      RecreatedIsReportedAgain(at, at, at, success, d);
    }
  }

  /** Some event of the present lifetime was sent no earlier than `instant`. */
  ghost predicate SentSince(m: Memory, instant: Time) {
    exists s <- m.log :: s.lifetime == m.lifetime && instant <= s.at
  }

  lemma SentSinceIsLastSent(m: Memory, instant: Time)
    requires MemoryInv(m)
    ensures SentSince(m, instant) <==> m.lastSent > ZERO_TIME && instant <= m.lastSent
  {
    if m.lastSent > ZERO_TIME {
      assert m.log[|m.log|-1] in m.log;
    }
  }

  lemma StepSendsIfDue(durations: seq<int>, m: Memory, step: Happening)
    requires step.EventStep?
    ensures var m' := After(durations, m, step);
            if step.didConnect || step.didDisconnect
               || exists d <- durations :: FailureDue(step.now, step.lastSuccess, m.lastSent, d)
            then m'.lastSent == step.now else m'.lastSent == m.lastSent
  {
    EventReasonsAreDue(durations, m, step);
    var reasons := Reasons(step.now, step.lastSuccess, m.lastSent, step.didConnect, step.didDisconnect, durations);
    assert reasons == [] || reasons[0] in reasons;
  }

  /** Complete: after every event step later than `lastSuccess + d`, an event has been sent at or after that
      instant, unless nothing was sent before and every instant that has passed lies at or before the zero time.
      That exception needs a cluster that was never connected and durations that are not positive. */
  lemma FailureIsReported(durations: seq<int>, happenings: seq<Happening>, step: Happening, d: int)
    requires CanHappen(durations, happenings) && step.EventStep? && Possible(Run(durations, happenings), step)
    requires d in durations && step.lastSuccess + d < step.now
    ensures var m := Run(durations, happenings);
            SentSince(After(durations, m, step), step.lastSuccess + d) <==>
              || m.lastSent > ZERO_TIME || step.didConnect || step.didDisconnect
              || exists d' <- durations :: ZERO_TIME < step.lastSuccess + d' < step.now
  {
    RunKeepsMemoryInv(durations, happenings);
    var m := Run(durations, happenings);
    StepKeepsMemoryInv(durations, m, step);
    SentSinceIsLastSent(After(durations, m, step), step.lastSuccess + d);
    StepSendsIfDue(durations, m, step);
  }

  /** A duration of zero is never reported for a cluster that was never connected, however late it is. */
  lemma ZeroDurationIsSilentBeforeFirstConnect(now: Time)
    ensures Reasons(now, ZERO_TIME, ZERO_TIME, false, false, [0]) == []
  {
    assert FailureReasons(now, ZERO_TIME, ZERO_TIME, [0][..0]) == [];
  }
}
