/** `ObjectTracker.Watch`: many threads, one watch per kind of external object. A thread claims the key in a
    concurrent map, asks the controller to watch, and gives the claim back if that failed. */
module Tracker {

  /** Where a call of `Watch` stands after its `LoadOrStore`. */
  datatype Pc =
    | Claimed(key: string)                 // stored the key, calling the controller
    | Failing(key: string)                 // the controller refused, about to delete the key

  datatype Return = Nil | NotSetUp | WatchFailed

  /** A call that returned; `found` says that the key was already in the map. */
  datatype Done = Done(thread: nat, key: string, result: Return, found: bool)

  /** `keys` is the map, `watched` lists the kinds whose controller watch succeeded, in order. */
  datatype State = State(keys: set<string>, threads: map<nat, Pc>, watched: seq<string>, done: seq<Done>)

  const START := State({}, map[], [], [])

  datatype Step =
    | Call(thread: nat, key: string, setUp: bool)       // up to and including LoadOrStore
    | ControllerWatch(thread: nat, ok: bool)
    | GiveBack(thread: nat)

  predicate Enabled(s: State, step: Step) {
    match step
    case Call(t, _, _) => t !in s.threads
    case ControllerWatch(t, _) => t in s.threads && s.threads[t].Claimed?
    case GiveBack(t) => t in s.threads && s.threads[t].Failing?
  }

  function Next(s: State, step: Step): State
    requires Enabled(s, step)
  {
    match step
    case Call(t, key, setUp) =>
      if !setUp then s.(done := s.done + [Done(t, key, NotSetUp, false)])
      else if key in s.keys then s.(done := s.done + [Done(t, key, Nil, true)])
      else s.(keys := s.keys + {key}, threads := s.threads[t := Claimed(key)])
    case ControllerWatch(t, ok) =>
      var key := s.threads[t].key;
      if ok then
        s.(threads := s.threads - {t}, watched := s.watched + [key], done := s.done + [Done(t, key, Nil, false)])
      else s.(threads := s.threads[t := Failing(key)])
    case GiveBack(t) =>
      var key := s.threads[t].key;
      s.(threads := s.threads - {t}, keys := s.keys - {key}, done := s.done + [Done(t, key, WatchFailed, false)])
  }

  predicate CanRun(s: State, steps: seq<Step>)
    decreases steps, 0
  {
    steps == [] || (CanRun(s, steps[..|steps|-1]) && Enabled(Run(s, steps[..|steps|-1]), steps[|steps|-1]))
  }

  function Run(s: State, steps: seq<Step>): State
    requires CanRun(s, steps)
    decreases steps, 1
  {
    if steps == [] then s else Next(Run(s, steps[..|steps|-1]), steps[|steps|-1])
  }

  predicate InFlight(s: State, key: string) {
    exists t <- s.threads :: s.threads[t].key == key
  }

  /** At most one thread holds a claim for a key, no kind is watched twice, and a key is in the map exactly when
      one claim for it is in flight or one watch for it has succeeded, never both. */
  ghost predicate Inv(s: State) {
    && (forall t, u :: t in s.threads && u in s.threads && s.threads[t].key == s.threads[u].key ==> t == u)
    && (forall i, j :: 0 <= i < j < |s.watched| ==> s.watched[i] != s.watched[j])
    && (forall key :: key in s.keys <==> InFlight(s, key) || key in s.watched)
    && (forall key :: !(InFlight(s, key) && key in s.watched))
    && (forall d <- s.done :: d.result.Nil? && !d.found ==> d.key in s.watched)
  }

  lemma StepKeepsInv(s: State, step: Step)
    requires Inv(s) && Enabled(s, step)
    ensures Inv(Next(s, step))
  {
    var s' := Next(s, step);
    if step.ControllerWatch? {
      assert InFlight(s, s.threads[step.thread].key);
    }
    forall key
      ensures key in s'.keys <==> InFlight(s', key) || key in s'.watched
      ensures !(InFlight(s', key) && key in s'.watched)
    {
      assert key in s.keys <==> InFlight(s, key) || key in s.watched;
      assert !(InFlight(s, key) && key in s.watched);
      var t := step.thread;
      assert t in s.threads ==> InFlight(s, s.threads[t].key);
      if InFlight(s, key) {
        var u :| u in s.threads && s.threads[u].key == key;
        assert u != t ==> u in s'.threads && s'.threads[u].key == key;
      }
      assert t in s'.threads ==> InFlight(s', s'.threads[t].key);
    }
  }

  /** In every interleaving of any number of threads. */
  lemma {:induction false} EveryInterleavingIsExclusive(steps: seq<Step>)
    requires CanRun(START, steps)
    ensures Inv(Run(START, steps))
  {
    if steps == [] {
    } else {
      EveryInterleavingIsExclusive(steps[..|steps|-1]);
      StepKeepsInv(Run(START, steps[..|steps|-1]), steps[|steps|-1]);
    }
  }

  /** A kind that is watched stays watched, once, and every later call for it returns nil at once. */
  lemma {:induction false} WatchedForEver(s: State, steps: seq<Step>, key: string)
    requires Inv(s) && CanRun(s, steps) && key in s.watched
    ensures var s' := Run(s, steps);
            && Inv(s') && s.watched <= s'.watched && key in s'.keys && !InFlight(s', key)
            && (forall t :: Enabled(s', Call(t, key, true)) ==>
                  Next(s', Call(t, key, true)) == s'.(done := s'.done + [Done(t, key, Nil, true)]))
  {
    if steps == [] {
    } else {
      WatchedForEver(s, steps[..|steps|-1], key);
      StepKeepsInv(Run(s, steps[..|steps|-1]), steps[|steps|-1]);
    }
  }

  // ----- What calls return -----

  /** How often calls of a thread for a key returned this. */
  function Returned(done: seq<Done>, t: nat, key: string, result: Return): nat {
    if done == [] then 0
    else
      var d := done[|done|-1];
      Returned(done[..|done|-1], t, key, result) + if d.thread == t && d.key == key && d.result == result then 1 else 0
  }

  /** What the last step of a run decided for a call: that it was not set up, that it found the key in the map, that the
      controller accepted its watch, or that the controller refused it. */
  datatype Decision = Unready | Found | Accepted | Refused

  predicate Decides(s: State, step: Step, t: nat, key: string, decision: Decision)
    requires Enabled(s, step)
  {
    match decision
    case Unready => step == Call(t, key, false)
    case Found => step == Call(t, key, true) && key in s.keys
    case Accepted => step == ControllerWatch(t, true) && s.threads[t].key == key
    case Refused => step == ControllerWatch(t, false) && s.threads[t].key == key
  }

  /** How many steps of a run decided so. */
  function Decided(steps: seq<Step>, t: nat, key: string, decision: Decision): nat
    requires CanRun(START, steps)
  {
    if steps == [] then 0
    else
      var before := steps[..|steps|-1];
      Decided(before, t, key, decision)
      + if Decides(Run(START, before), steps[|steps|-1], t, key, decision) then 1 else 0
  }

  lemma ReturnedOneMore(done: seq<Done>, d: Done, t: nat, key: string, result: Return)
    ensures Returned(done + [d], t, key, result) ==
              Returned(done, t, key, result) + if d.thread == t && d.key == key && d.result == result then 1 else 0
  {
    assert (done + [d])[..|done + [d]|-1] == done;
  }

  /** The claim of the thread for the key was refused and is about to be given back. */
  predicate GivingBack(s: State, t: nat, key: string) {
    t in s.threads && s.threads[t] == Failing(key)
  }

  /** A step completes at most one call. */
  lemma StepCompletes(s: State, step: Step, t: nat, key: string, result: Return)
    requires Enabled(s, step)
    ensures var s' := Next(s, step);
            || (s'.done == s.done && Returned(s'.done, t, key, result) == Returned(s.done, t, key, result))
            || (&& |s'.done| == |s.done| + 1 && s'.done[..|s.done|] == s.done
                && var d := s'.done[|s.done|];
                   Returned(s'.done, t, key, result) == Returned(s.done, t, key, result)
                     + if d.thread == t && d.key == key && d.result == result then 1 else 0)
  {
    var s' := Next(s, step);
    if s'.done != s.done {
      assert s'.done == s.done + [s'.done[|s.done|]];
      ReturnedOneMore(s.done, s'.done[|s.done|], t, key, result);
    }
  }

  lemma NilOneMore(s: State, step: Step, t: nat, key: string)
    requires Enabled(s, step)
    ensures Returned(Next(s, step).done, t, key, Nil) == Returned(s.done, t, key, Nil)
              + if Decides(s, step, t, key, Found) || Decides(s, step, t, key, Accepted) then 1 else 0
  {
    StepCompletes(s, step, t, key, Nil);
  }

  lemma NotSetUpOneMore(s: State, step: Step, t: nat, key: string)
    requires Enabled(s, step)
    ensures Returned(Next(s, step).done, t, key, NotSetUp) == Returned(s.done, t, key, NotSetUp)
              + if Decides(s, step, t, key, Unready) then 1 else 0
  {
    StepCompletes(s, step, t, key, NotSetUp);
  }

  lemma FailureOneMore(s: State, step: Step, t: nat, key: string)
    requires Enabled(s, step)
    ensures var s' := Next(s, step);
            Returned(s'.done, t, key, WatchFailed) + (if GivingBack(s', t, key) then 1 else 0)
            == Returned(s.done, t, key, WatchFailed) + (if GivingBack(s, t, key) then 1 else 0)
                 + (if Decides(s, step, t, key, Refused) then 1 else 0)
  {
    StepCompletes(s, step, t, key, WatchFailed);
  }

  /** In every run calls return nil exactly as often as their own watch was accepted or they found the key, report a
      missing set-up exactly as often as it was missing, and report a failure exactly once for each watch that was
      refused, except for the one that is just being given back. */
  lemma {:induction false} ReturnsAreEarned(steps: seq<Step>, t: nat, key: string)
    requires CanRun(START, steps)
    ensures var s := Run(START, steps);
            && Returned(s.done, t, key, Nil) == Decided(steps, t, key, Found) + Decided(steps, t, key, Accepted)
            && Returned(s.done, t, key, NotSetUp) == Decided(steps, t, key, Unready)
            && Returned(s.done, t, key, WatchFailed) + (if GivingBack(s, t, key) then 1 else 0)
            == Decided(steps, t, key, Refused)
  {
    if steps == [] {
    } else {
      ReturnsAreEarned(steps[..|steps|-1], t, key);
      var s := Run(START, steps[..|steps|-1]);
      NilOneMore(s, steps[|steps|-1], t, key);
      NotSetUpOneMore(s, steps[|steps|-1], t, key);
      FailureOneMore(s, steps[|steps|-1], t, key);
    }
  }

  /** A nil that came from finding the key promises less than a watch: it may have found a claim whose watch then
      fails. Here thread 2 is told nil and in the end nothing is watched and nothing is claimed. */
  lemma NilWithoutWatch(key: string)
    ensures var s1 := Next(START, Call(1, key, true));
            var s2 := Next(s1, Call(2, key, true));
            var s3 := Next(s2, ControllerWatch(1, false));
            var s4 := Next(s3, GiveBack(1));
            && Done(2, key, Nil, true) in s4.done
            && s4.watched == [] && s4.keys == {} && s4.threads == map[]
  {
  }

  /** It promises a watch exactly when no claim for the key was in flight at that moment. */
  lemma NilFromMapMeansWatchedIffNoClaim(steps: seq<Step>, thread: nat, key: string)
    requires CanRun(START, steps) && Enabled(Run(START, steps), Call(thread, key, true))
    requires Next(Run(START, steps), Call(thread, key, true)).done
          == Run(START, steps).done + [Done(thread, key, Nil, true)]
    ensures key in Run(START, steps).watched <==> !InFlight(Run(START, steps), key)
  {
    EveryInterleavingIsExclusive(steps);
    assert key in Run(START, steps).keys;
  }

  /** The tracker as an object, for a call that is not interrupted. */
  class ObjectTracker {
    var m: set<string>

    constructor ()
      ensures m == {}
    {
      m := {};
    }

    /** Such a call is a `Call` followed by what it leads to. */
    method Watch(setUp: bool, key: string, controllerAccepts: bool) returns (result: Return, watched: bool)
      modifies this
      ensures var before := State(old(m), map[], [], []);
              var called := Next(before, Call(0, key, setUp));
              var asked := if 0 in called.threads then Next(called, ControllerWatch(0, controllerAccepts)) else called;
              var after := if 0 in asked.threads then Next(asked, GiveBack(0)) else asked;
              && m == after.keys
              && |after.done| == 1 && result == after.done[0].result
              && (watched <==> after.watched == [key])
      ensures m == if watched then old(m) + {key} else old(m)
      ensures result.NotSetUp? <==> !setUp
      ensures result.Nil? <==> setUp && (key in old(m) || controllerAccepts)
      ensures watched <==> setUp && key !in old(m) && controllerAccepts
    {
      if !setUp {
        return NotSetUp, false;
      }
      if key in m {
        return Nil, false;
      }
      m := m + {key};
      if !controllerAccepts {
        m := m - {key};
        return WatchFailed, false;
      }
      return Nil, true;
    }
  }
}
