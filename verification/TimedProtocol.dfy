/** Whole lives of one accessor under the interleaving of `AccessorProtocol`: reconcile after reconcile, each with
    readers between any two of its steps. They are the timed runs of `Timing`, but for watches, so what is proved
    there of timestamps, counters and durations holds of the accessor that readers share. */
module TimedProtocol {
  import opened Base
  import opened LockedState
  import opened AtomicAccessor
  import opened AccessorProtocol
  import opened Reconcile
  import opened ReconcileProtocol
  import opened Timing

  /** One reconcile with the steps of its thread and of readers during and around it, or one that stops at the
      readiness gate. */
  datatype Episode =
    | Reconciled(answers: Answers, steps: seq<Step>)
    | Skipped(at: Time)

  predicate Possible(config: Config, w: World, e: Episode) {
    e.Reconciled? ==>
      && CanReconcile(config, e.answers, w, e.steps)
      && Reconciling(config, e.answers, w, e.steps).thread.at.Finished?
  }

  function WorldAfterOne(config: Config, w: World, e: Episode): World
    requires Possible(config, w, e)
  {
    if e.Reconciled? then Reconciling(config, e.answers, w, e.steps).w else w
  }

  predicate CanLive(config: Config, life: seq<Episode>)
    decreases life, 0
  {
    life == [] || (CanLive(config, life[..|life|-1])
                   && Possible(config, WorldAfter(config, life[..|life|-1]), life[|life|-1]))
  }

  function WorldAfter(config: Config, life: seq<Episode>): World
    requires CanLive(config, life)
    decreases life, 1
  {
    if life == [] then START else WorldAfterOne(config, WorldAfter(config, life[..|life|-1]), life[|life|-1])
  }

  function TickOf(w: World, e: Episode): Tick<nat> {
    match e
    case Reconciled(answers, _) => Ready(answers.ToInput(Abstraction(w)))
    case Skipped(at) => Gated(at)
  }

  /** The timed run that has the same reconciles and no readers. */
  function TicksOf(config: Config, life: seq<Episode>): seq<Tick<nat>>
    requires CanLive(config, life)
  {
    if life == [] then [] else
      TicksOf(config, life[..|life|-1]) + [TickOf(WorldAfter(config, life[..|life|-1]), life[|life|-1])]
  }

  lemma ReconcileRespectsView(config: Config, s: Locked<nat>, s': Locked<nat>, input: Input<nat>)
    requires WithoutWatches(s) == WithoutWatches(s')
    ensures var r, r' := ReconcileReady(config, s, input), ReconcileReady(config, s', input);
            WithoutWatches(r.state) == WithoutWatches(r'.state) && r.(state := r'.state) == r'
  {
  }

  /** What a life and its timed run have in common. */
  ghost predicate Agree(w: World, t: Timed<nat>) {
    && Inv(w) && w.reconciler.Idle? && RECONCILER !in w.watchers
    && WithoutWatches(w.locked) == WithoutWatches(t.state)
  }

  lemma EpisodeIsTick(config: Config, w: World, t: Timed<nat>, e: Episode)
    requires Agree(w, t) && Possible(config, w, e)
    ensures Agree(WorldAfterOne(config, w, e), After(config, t, TickOf(w, e)))
  {
    if e.Reconciled? {
      InterleavedReconcileIsReconcile(config, e.answers, w, e.steps);
      ReconcileRespectsView(config, w.locked, t.state, e.answers.ToInput(Abstraction(w)));
    }
  }

  /** Every life of an accessor among readers is a timed run, but for watches. */
  lemma {:induction false} LivesAreTimedRuns(config: Config, clock: Time, life: seq<Episode>)
    requires CanLive(config, life)
    ensures Agree(WorldAfter(config, life), RunTicks(config, Begin(clock), TicksOf(config, life)))
  {
    if life == [] {
    } else {
      var before, e := life[..|life|-1], life[|life|-1];
      var w, ticks := WorldAfter(config, before), TicksOf(config, life);
      LivesAreTimedRuns(config, clock, before);
      EpisodeIsTick(config, w, RunTicks(config, Begin(clock), TicksOf(config, before)), e);
      assert ticks[..|ticks|-1] == TicksOf(config, before) && ticks[|ticks|-1] == TickOf(w, e);
    }
  }

  /** What the accessor's stamps and counter say about the history of its timed run. */
  ghost predicate Tells(config: Config, s: Locked<nat>, t: Timed<nat>) {
    var k := Timing.AfterLastSuccess(t.history);
    && Spaced(config, t.history)
    && s.health.failures == |ProbesFrom(t.history, k)|
    && s.health.lastSuccess == (if k == 0 then ZERO_TIME else t.history[k-1].end)
    && s.health.lastSuccess <= s.health.lastProbe <= t.clock
    && (s.connection.Some? && config.failureThreshold >= 1 ==> s.health.failures < config.failureThreshold)
  }

  lemma AgreeingStateTells(config: Config, s: Locked<nat>, t: Timed<nat>)
    requires WithoutWatches(s) == WithoutWatches(t.state) && TimedInv(config, t)
    ensures Tells(config, s, t)
  {
    FoldsSayWhatHappened(t.history);
  }

  /** So the accessor that readers share has the stamps and the counter of its history, spaced as they should be:
      among any number of readers, between reconciles a connection has failed fewer probes than the threshold. */
  lemma LivesAreSpaced(config: Config, clock: Time, life: seq<Episode>)
    requires CanLive(config, life)
    requires ZERO_TIME <= clock && AllPossible(config, Begin(clock), TicksOf(config, life))
    ensures Tells(config, WorldAfter(config, life).locked, RunTicks(config, Begin(clock), TicksOf(config, life)))
  {
    LivesAreTimedRuns(config, clock, life);
    RunsAreSpaced(config, clock, TicksOf(config, life));
    AgreeingStateTells(
      config, WorldAfter(config, life).locked, RunTicks(config, Begin(clock), TicksOf(config, life)));
  }
}
