/** The accessor as its threads really run it: one reconciler thread and any number of reader threads,
    interleaved between critical sections. A critical section of the lock is one step, and so is each piece of
    work done without the lock (building a connection, probing the API server). */
module AccessorProtocol {
  import opened Base
  import opened LockedState
  import opened AtomicAccessor

  /** Where the reconciler thread stands inside `Connect`, `Disconnect` or `HealthCheck`. */
  datatype ReconcilerPc =
    | Idle
    | Connecting                                              // saw no connection; building one
    | ConnectionReady(creation: Creation)                     // about to take the lock and install
    | Disconnecting                                           // saw a connection; about to take the lock
    | CheckingHealth                                          // saw a connection; about to read its client
    | Probing(client: Handle)
    | Probed(client: Handle, probe: ProbeOutcome)             // about to take the lock and record

  /** What must never happen. */
  datatype Fault = NilDereference | OverwroteConnection | UsedStoppedCache | ProbedOtherConnection

  /** `watchers` maps each reader that passed the first check of `Watch` to the name of its watcher. */
  datatype World = World(
    locked: Locked<nat>,
    caches: seq<CacheState>,
    starts: seq<(nat, string)>,
    reconciler: ReconcilerPc,
    watchers: map<nat, string>,
    log: seq<Op>,
    faults: set<Fault>)

  const START := World(Fresh(), [], [], Idle, map[], [], {})

  /** One step of some thread, with the answer of the outside world. */
  datatype Step =
    | ConnectBegin
    | CreateConnection(creation: Creation)
    | ConnectFinish(generated: Option<nat>, at: Time)
    | DisconnectBegin
    | DisconnectFinish
    | HealthBegin
    | HealthReadClient
    | HealthProbe(probe: ProbeOutcome)
    | HealthFinish(at: Time)
    | WatchBegin(thread: nat, name: string)
    | WatchFinish(thread: nat, starts: bool)
    | Read(thread: nat, getter: Getter)

  predicate IsReaderStep(step: Step) {
    step.WatchBegin? || step.WatchFinish? || step.Read?
  }

  predicate Enabled(w: World, step: Step) {
    match step
    case ConnectBegin => w.reconciler.Idle?
    case CreateConnection(_) => w.reconciler.Connecting?
    case ConnectFinish(_, _) => w.reconciler.ConnectionReady?
    case DisconnectBegin => w.reconciler.Idle?
    case DisconnectFinish => w.reconciler.Disconnecting?
    case HealthBegin => w.reconciler.Idle?
    case HealthReadClient => w.reconciler.CheckingHealth?
    case HealthProbe(_) => w.reconciler.Probing?
    case HealthFinish(_) => w.reconciler.Probed?
    case WatchBegin(thread, _) => thread !in w.watchers
    case WatchFinish(thread, _) => thread in w.watchers
    case Read(thread, _) => thread !in w.watchers
  }

  function Raise(w: World, fault: Fault): World {
    w.(faults := w.faults + {fault})
  }

  function Finish(w: World, op: Op): World {
    w.(reconciler := Idle, log := w.log + [op])
  }

  function InstallStep(w: World, creation: Creation, generated: Option<nat>, at: Time): World {
    var started := |StartedCaches(creation)|;
    var cache := if |w.caches| < started then 0 else |w.caches| - started;
    var (s, err) := Install(w.locked, BuiltBy(creation, cache), generated, at);
    var w' := Finish(w.(locked := s), OpConnect(creation, cache, generated, at, err));
    if err.None? && w.locked.connection.Some? then Raise(w', OverwroteConnection) else w'
  }

  function StopStep(w: World): World {
    match w.locked.connection
    case None => Raise(w.(reconciler := Idle), NilDereference)
    case Some(c) =>
      var caches := if c.cache < |w.caches| then w.caches[c.cache := Stopped] else w.caches;
      Finish(w.(locked := w.locked.(connection := None), caches := caches), OpDisconnect)
  }

  function RecordStep(config: Config, w: World, client: Handle, probe: ProbeOutcome, at: Time): World {
    var (s, tooMany, unauthorized) := RecordProbe(config, w.locked, probe, at);
    var w' := Finish(w.(locked := s), OpHealthCheck(probe, at, tooMany, unauthorized));
    if w.locked.connection.Some? && w.locked.connection.value.restClient == client then w'
    else Raise(w', ProbedOtherConnection)
  }

  /** The write-locked half of `Watch`, which checks the connection again. */
  function AddWatchStep(w: World, thread: nat, name: string, starts: bool): World {
    var (s, result) := Watch(w.locked, name, starts);
    var asked := WatchAsksWatcher(w.locked, name);
    var started := if asked && starts then [(w.locked.connection.value.cache, name)] else [];
    var w' := w.(locked := s, starts := w.starts + started, watchers := w.watchers - {thread},
                 log := w.log + [OpWatch(thread, name, starts, result)]);
    if asked && !(w.locked.connection.value.cache < |w.caches| && w.caches[w.locked.connection.value.cache] == Running)
    then Raise(w', UsedStoppedCache) else w'
  }

  function Next(config: Config, w: World, step: Step): World
    requires Enabled(w, step)
  {
    match step
    case ConnectBegin =>
      if w.locked.connection.Some? then Finish(w, OpConnect(FailedBeforeStart, 0, None, ZERO_TIME, None))
      else w.(reconciler := Connecting)
    case CreateConnection(creation) =>
      w.(reconciler := ConnectionReady(creation), caches := w.caches + StartedCaches(creation))
    case ConnectFinish(generated, at) => InstallStep(w, w.reconciler.creation, generated, at)
    case DisconnectBegin =>
      if w.locked.connection.None? then Finish(w, OpDisconnect) else w.(reconciler := Disconnecting)
    case DisconnectFinish => StopStep(w)
    case HealthBegin =>
      if w.locked.connection.None? then Finish(w, OpHealthCheck(ProbeOk, ZERO_TIME, false, false))
      else w.(reconciler := CheckingHealth)
    case HealthReadClient =>
      if w.locked.connection.None? then Raise(w.(reconciler := Idle), NilDereference)
      else w.(reconciler := Probing(w.locked.connection.value.restClient))
    case HealthProbe(probe) => w.(reconciler := Probed(w.reconciler.client, probe))
    case HealthFinish(at) => RecordStep(config, w, w.reconciler.client, w.reconciler.probe, at)
    case WatchBegin(thread, name) =>
      if name == "" then w.(log := w.log + [OpWatch(thread, name, false, WatchEmptyName)])
      else if w.locked.connection.None? then w.(log := w.log + [OpWatch(thread, name, false, WatchNotConnected)])
      else w.(watchers := w.watchers[thread := name])
    case WatchFinish(thread, starts) => AddWatchStep(w, thread, w.watchers[thread], starts)
    case Read(thread, getter) => w.(log := w.log + [OpGet(thread, getter, Get(w.locked, getter))])
  }

  /** Any interleaving: a sequence of steps, each enabled where it is taken. */
  predicate CanRun(config: Config, w: World, steps: seq<Step>)
    decreases steps, 0
  {
    steps == [] || (CanRun(config, w, steps[..|steps|-1])
                    && Enabled(Run(config, w, steps[..|steps|-1]), steps[|steps|-1]))
  }

  function Run(config: Config, w: World, steps: seq<Step>): World
    requires CanRun(config, w, steps)
    decreases steps, 1
  {
    if steps == [] then w
    else Next(config, Run(config, w, steps[..|steps|-1]), steps[|steps|-1])
  }

  // ----- Refinement -----

  /** True while a connect holds a cache it has started but neither installed nor reported. */
  predicate CacheInFlight(w: World) {
    w.reconciler.ConnectionReady? && !w.reconciler.creation.FailedBeforeStart?
  }

  /** The atomic state a world stands for: an unfinished connect has not happened yet. */
  function Abstraction(w: World): Atomic {
    Atomic(w.locked, if CacheInFlight(w) && w.caches != [] then w.caches[..|w.caches|-1] else w.caches, w.starts)
  }

  /** What the reconciler may rely on between its critical sections, because it alone changes the connection. */
  predicate PcMatchesConnection(w: World) {
    match w.reconciler
    case Idle => true
    case Connecting => w.locked.connection.None?
    case ConnectionReady(creation) =>
      && w.locked.connection.None?
      && |StartedCaches(creation)| <= |w.caches|
      && w.caches[|w.caches| - |StartedCaches(creation)|..] == StartedCaches(creation)
    case Disconnecting => w.locked.connection.Some?
    case CheckingHealth => w.locked.connection.Some?
    case Probing(client) => w.locked.connection.Some? && client == w.locked.connection.value.restClient
    case Probed(client, _) => w.locked.connection.Some? && client == w.locked.connection.value.restClient
  }

  ghost predicate Inv(w: World) {
    && w.faults == {}
    && PcMatchesConnection(w)
    && (forall t <- w.watchers :: w.watchers[t] != "")
    && Consistent(Abstraction(w))
  }

  /** A step either changes nothing the atomic machine sees, or completes one operation, which returned what it
      returns there, as one atomic step. */
  ghost predicate Simulates(config: Config, w: World, w': World) {
    || (w'.log == w.log && Abstraction(w') == Abstraction(w))
    || (&& |w'.log| == |w.log| + 1 && w'.log[..|w.log|] == w.log
        && Returns(config, Abstraction(w), w'.log[|w.log|])
        && Abstraction(w') == Apply(config, Abstraction(w), w'.log[|w.log|]))
  }

  lemma ReconcilerStepSimulates(config: Config, w: World, step: Step)
    requires Inv(w) && Enabled(w, step) && !IsReaderStep(step)
    ensures Simulates(config, w, Next(config, w, step))
    ensures Next(config, w, step).faults == {}
    ensures PcMatchesConnection(Next(config, w, step))
  {
    var w' := Next(config, w, step);
    if step.ConnectFinish? {
      assert Abstraction(w').caches == Abstraction(w).caches + StartedCaches(w.reconciler.creation);
    } else if step.CreateConnection? {
      assert Abstraction(w').caches == Abstraction(w).caches;
    }
  }

  /** What a reader's step does: it simulates an atomic step, faults nowhere and changes the watch set at most. */
  ghost predicate ReaderStepIsFine(config: Config, w: World, w': World) {
    && Simulates(config, w, w') && w'.faults == {} && PcMatchesConnection(w')
    && w'.reconciler == w.reconciler && WithoutWatches(w'.locked) == WithoutWatches(w.locked)
  }

  lemma WatchBeginSimulates(config: Config, w: World, thread: nat, name: string)
    requires Inv(w) && Enabled(w, WatchBegin(thread, name))
    ensures ReaderStepIsFine(config, w, Next(config, w, WatchBegin(thread, name)))
  {
    assert Abstraction(Next(config, w, WatchBegin(thread, name))) == Abstraction(w);
  }

  lemma WatchFinishSimulates(config: Config, w: World, thread: nat, starts: bool)
    requires Inv(w) && Enabled(w, WatchFinish(thread, starts))
    ensures ReaderStepIsFine(config, w, Next(config, w, WatchFinish(thread, starts)))
  {
  }

  lemma ReadSimulates(config: Config, w: World, thread: nat, getter: Getter)
    requires Inv(w) && Enabled(w, Read(thread, getter))
    ensures ReaderStepIsFine(config, w, Next(config, w, Read(thread, getter)))
  {
  }

  lemma ReaderStepSimulates(config: Config, w: World, step: Step)
    requires Inv(w) && Enabled(w, step) && IsReaderStep(step)
    ensures ReaderStepIsFine(config, w, Next(config, w, step))
  {
    match step
    case WatchBegin(thread, name) => WatchBeginSimulates(config, w, thread, name);
    case WatchFinish(thread, starts) => WatchFinishSimulates(config, w, thread, starts);
    case Read(thread, getter) => ReadSimulates(config, w, thread, getter);
  }

  lemma StepKeepsInv(config: Config, w: World, step: Step)
    requires Inv(w) && Enabled(w, step)
    ensures Inv(Next(config, w, step)) && Simulates(config, w, Next(config, w, step))
  {
    if IsReaderStep(step) {
      ReaderStepSimulates(config, w, step);
    } else {
      ReconcilerStepSimulates(config, w, step);
    }
    var w' := Next(config, w, step);
    if w'.log != w.log {
      ApplyConsistent(config, Abstraction(w), w'.log[|w.log|]);
    }
  }

  /** Check-then-act safety: no interleaving dereferences a missing connection, installs over a live one, probes
      through a client of another connection or starts a watcher on a stopped cache. */
  lemma {:induction false} NoInterleavingFaults(config: Config, steps: seq<Step>)
    requires CanRun(config, START, steps)
    ensures Run(config, START, steps).faults == {}
    ensures Inv(Run(config, START, steps))
  {
    if steps == [] {
    } else {
      NoInterleavingFaults(config, steps[..|steps|-1]);
      StepKeepsInv(config, Run(config, START, steps[..|steps|-1]), steps[|steps|-1]);
    }
  }

  /** Linearizability: the operations of every interleaving, in the order in which they returned and with the
      values they returned, are a run of the atomic machine that ends in the same state. An operation takes
      effect in the step in which it returns, hence between its call and its return. */
  lemma {:induction false} InterleavingsRefineAtomicRuns(config: Config, steps: seq<Step>)
    requires CanRun(config, START, steps)
    ensures var w := Run(config, START, steps);
            && Legal(config, INITIAL, w.log)
            && Abstraction(w) == Replay(config, INITIAL, w.log)
  {
    if steps == [] {
    } else {
      var before := Run(config, START, steps[..|steps|-1]);
      InterleavingsRefineAtomicRuns(config, steps[..|steps|-1]);
      NoInterleavingFaults(config, steps[..|steps|-1]);
      StepKeepsInv(config, before, steps[|steps|-1]);
    }
  }

  // ----- What the refinement gives for every interleaving -----

  /** While no connect is in flight, the running caches number one if connected plus one for each connect that
      failed at key generation; the installed cache runs and every earlier installed one is stopped. */
  lemma CachesAreConservedInEveryInterleaving(config: Config, steps: seq<Step>)
    requires CanRun(config, START, steps)
    requires !CacheInFlight(Run(config, START, steps))
    ensures var w := Run(config, START, steps);
            && RunningCount(w.caches) == (if w.locked.connection.Some? then 1 else 0) + LeakCount(w.log)
            && (w.locked.connection.Some? ==>
                  w.locked.connection.value.cache in Installed(w.log))
            && (forall c <- Installed(w.log) :: c < |w.caches| &&
                  (w.caches[c] == Running <==>
                     w.locked.connection.Some? && w.locked.connection.value.cache == c))
  {
    InterleavingsRefineAtomicRuns(config, steps);
    CachesAreConserved(config, Run(config, START, steps).log);
  }

  /** Each watcher name is started at most once on each cache, the watch set of a connection is exactly the set
      of names started on its cache, and that cache is running. */
  lemma WatchesAreStartedExactlyOnce(config: Config, steps: seq<Step>)
    requires CanRun(config, START, steps)
    ensures var w := Run(config, START, steps);
            && Distinct(w.starts)
            && (w.locked.connection.Some? ==>
                  var c := w.locked.connection.value;
                  && c.cache < |w.caches| && w.caches[c.cache] == Running
                  && w.locked.privateKey.Some?
                  && (forall n :: n in c.watches <==> (c.cache, n) in w.starts))
  {
    NoInterleavingFaults(config, steps);
  }

  /** A private key, once there, is the key in every continuation. */
  lemma {:induction false} PrivateKeyIsStableInEveryInterleaving(config: Config, w: World, steps: seq<Step>)
    requires w.locked.privateKey.Some? && CanRun(config, w, steps)
    ensures Run(config, w, steps).locked.privateKey == w.locked.privateKey
  {
    if steps == [] {
    } else {
      PrivateKeyIsStableInEveryInterleaving(config, w, steps[..|steps|-1]);
    }
  }

  /** In every interleaving the failure counter is the number of failed probes since the later of the last
      successful probe and the last successful connect, as found in the log of completed operations. */
  lemma CounterCountsFailuresInEveryInterleaving(config: Config, steps: seq<Step>)
    requires CanRun(config, START, steps)
    ensures var w := Run(config, START, steps);
            w.locked.health.failures == |FailedProbesFrom(w.log, AfterLastSuccess(w.log))|
  {
    InterleavingsRefineAtomicRuns(config, steps);
    CounterCountsFailures(config, Run(config, START, steps).log);
  }

  // ----- The single-reconciler rule is needed -----

  /** The same steps with a second reconciler thread: `w.reconciler` is the first one's position. */
  datatype TwoReconcilers = TwoReconcilers(w: World, second: ReconcilerPc)

  function StepOf(config: Config, t: TwoReconcilers, bySecond: bool, step: Step): TwoReconcilers {
    var w := if bySecond then t.w.(reconciler := t.second) else t.w;
    if !Enabled(w, step) then t else
      var w' := Next(config, w, step);
      if bySecond then TwoReconcilers(w'.(reconciler := t.w.reconciler), w'.reconciler) else t.(w := w')
  }

  /** Two overlapping connects install one connection over the other, and the first one's cache runs for ever. */
  lemma OverlappingConnectsOverwrite(config: Config, key: nat, at: Time)
    ensures var made := CreateConnection(Created(1, 2, 3));
            var t1 := StepOf(config, TwoReconcilers(START, Idle), false, ConnectBegin);
            var t2 := StepOf(config, t1, true, ConnectBegin);
            var t3 := StepOf(config, t2, false, made);
            var t4 := StepOf(config, t3, false, ConnectFinish(Some(key), at));
            var t5 := StepOf(config, t4, true, made);
            var t6 := StepOf(config, t5, true, ConnectFinish(Some(key), at));
            OverwroteConnection in t6.w.faults && t6.w.caches == [Running, Running]
  {
  }

  /** Two overlapping disconnects of a connected accessor dereference the missing connection. */
  lemma OverlappingDisconnectsFault(config: Config, w: World)
    requires Inv(w) && w.reconciler.Idle? && w.locked.connection.Some?
    ensures var t1 := StepOf(config, TwoReconcilers(w, Idle), false, DisconnectBegin);
            var t2 := StepOf(config, t1, true, DisconnectBegin);
            var t3 := StepOf(config, t2, true, DisconnectFinish);
            NilDereference in StepOf(config, t3, false, DisconnectFinish).w.faults
  {
  }
}
