/** The whole cluster cache as an interleaved system: the table of accessors, every accessor ever created (readers
    may still hold it), one reconcile at a time per cluster key, and the event times kept for each source.
    Reconciles of different keys, readers and registrations of sources interleave freely. */
module HandleProtocol {
  import opened Base
  import opened LockedState
  import opened AtomicAccessor
  import opened AccessorProtocol
  import AccessorAnswers

  /** Where the reconcile of a key stands; `handle` is the accessor it got at its start. */
  datatype Phase =
    | Fetching(handle: nat)        // has the accessor, asks for the Cluster
    | Working(handle: nat)         // Cluster readable and ready: connects, probes, disconnects
    | Dropping(handle: nat)        // Cluster gone: inside Disconnect
    | Deleting(handle: nat)        // disconnected, about to leave the table
    | Cleaning(handle: nat)        // out of the table, about to forget its event times

  datatype System = System(
    table: map<ObjectKey, nat>,
    accessors: seq<World>,
    owners: seq<ObjectKey>,
    phases: map<ObjectKey, Phase>,
    sources: seq<map<ObjectKey, Time>>)

  const EMPTY := System(map[], [], [], map[], [])

  datatype SystemStep =
    | GetOrCreate(key: ObjectKey)
    | FetchEnds(key: ObjectKey)                       // read error, or infrastructure not ready
    | FetchReady(key: ObjectKey)
    | FetchNotFound(key: ObjectKey)
    | ReconcilerActs(key: ObjectKey, step: Step)
    | SendEvents(key: ObjectKey, targets: set<nat>, now: Time)
    | DropActs(key: ObjectKey, step: Step)
    | DeleteAccessor(key: ObjectKey)
    | Cleanup(key: ObjectKey)
    | ReaderActs(handle: nat, reading: Step)          // through a handle of any age
    | AddSource

  predicate Holds(sys: System, key: ObjectKey) {
    key in sys.phases && sys.phases[key].handle < |sys.accessors|
  }

  predicate SystemEnabled(sys: System, step: SystemStep) {
    match step
    case GetOrCreate(k) => k !in sys.phases
    case FetchEnds(k) => Holds(sys, k) && sys.phases[k].Fetching?
    case FetchReady(k) => Holds(sys, k) && sys.phases[k].Fetching?
    case FetchNotFound(k) => Holds(sys, k) && sys.phases[k].Fetching?
    case ReconcilerActs(k, s) =>
      Holds(sys, k) && sys.phases[k].Working? && !IsReaderStep(s) && Enabled(sys.accessors[sys.phases[k].handle], s)
    case SendEvents(k, _, _) =>
      Holds(sys, k) && sys.phases[k].Working? && sys.accessors[sys.phases[k].handle].reconciler.Idle?
    case DropActs(k, s) =>
      Holds(sys, k) && sys.phases[k].Dropping? && (s.DisconnectBegin? || s.DisconnectFinish?)
      && Enabled(sys.accessors[sys.phases[k].handle], s)
    case DeleteAccessor(k) => Holds(sys, k) && sys.phases[k].Deleting?
    case Cleanup(k) => Holds(sys, k) && sys.phases[k].Cleaning?
    case ReaderActs(a, s) => a < |sys.accessors| && IsReaderStep(s) && Enabled(sys.accessors[a], s)
    case AddSource => true
  }

  function ActOn(config: Config, sys: System, a: nat, s: Step): System
    requires a < |sys.accessors| && Enabled(sys.accessors[a], s)
  {
    sys.(accessors := sys.accessors[a := Next(config, sys.accessors[a], s)])
  }

  /** `getOrCreateClusterAccessor` */
  function GetOrCreateStep(sys: System, k: ObjectKey): System {
    if k in sys.table then sys.(phases := sys.phases[k := Fetching(sys.table[k])])
    else System(sys.table[k := |sys.accessors|], sys.accessors + [START], sys.owners + [k],
                sys.phases[k := Fetching(|sys.accessors|)], sys.sources)
  }

  /** Any subset of the sources gets an event; each remembers when. */
  function SentTo(sources: seq<map<ObjectKey, Time>>, k: ObjectKey, targets: set<nat>, now: Time)
    : seq<map<ObjectKey, Time>> {
    seq(|sources|, i requires 0 <= i < |sources| => if i in targets then sources[i][k := now] else sources[i])
  }

  function Forgotten(sources: seq<map<ObjectKey, Time>>, k: ObjectKey): seq<map<ObjectKey, Time>> {
    seq(|sources|, i requires 0 <= i < |sources| => sources[i] - {k})
  }

  function SystemNext(config: Config, sys: System, step: SystemStep): System
    requires SystemEnabled(sys, step)
  {
    match step
    case GetOrCreate(k) => GetOrCreateStep(sys, k)
    case FetchEnds(k) => sys.(phases := sys.phases - {k})
    case FetchReady(k) => sys.(phases := sys.phases[k := Working(sys.phases[k].handle)])
    case FetchNotFound(k) => sys.(phases := sys.phases[k := Dropping(sys.phases[k].handle)])
    case ReconcilerActs(k, s) => ActOn(config, sys, sys.phases[k].handle, s)
    case SendEvents(k, targets, now) =>
      sys.(phases := sys.phases - {k}, sources := SentTo(sys.sources, k, targets, now))
    case DropActs(k, s) =>
      var a := sys.phases[k].handle;
      var sys' := ActOn(config, sys, a, s);
      if sys'.accessors[a].reconciler.Idle? then sys'.(phases := sys.phases[k := Deleting(a)]) else sys'
    case DeleteAccessor(k) =>
      sys.(table := sys.table - {k}, phases := sys.phases[k := Cleaning(sys.phases[k].handle)])
    case Cleanup(k) =>
      sys.(phases := sys.phases - {k}, sources := Forgotten(sys.sources, k))
    case ReaderActs(a, s) => ActOn(config, sys, a, s)
    case AddSource => sys.(sources := sys.sources + [map[]])
  }

  predicate SystemCanRun(config: Config, sys: System, steps: seq<SystemStep>)
    decreases steps, 0
  {
    steps == [] || (SystemCanRun(config, sys, steps[..|steps|-1])
                    && SystemEnabled(SystemRun(config, sys, steps[..|steps|-1]), steps[|steps|-1]))
  }

  function SystemRun(config: Config, sys: System, steps: seq<SystemStep>): System
    requires SystemCanRun(config, sys, steps)
    decreases steps, 1
  {
    if steps == [] then sys
    else SystemNext(config, SystemRun(config, sys, steps[..|steps|-1]), steps[|steps|-1])
  }

  // ----- The invariant -----

  /** The accessor is no longer the one in the table: nobody can look it up any more. */
  predicate Retired(sys: System, a: nat)
    requires a < |sys.owners|
  {
    !(sys.owners[a] in sys.table && sys.table[sys.owners[a]] == a)
  }

  /** Some reconcile that may act on the connection of accessor `a` is under way. */
  predicate Active(sys: System, a: nat)
    requires a < |sys.owners|
  {
    sys.owners[a] in sys.phases &&
    (sys.phases[sys.owners[a]] == Working(a) || sys.phases[sys.owners[a]] == Dropping(a))
  }

  ghost predicate AccessorOk(sys: System, a: nat)
    requires a < |sys.owners| == |sys.accessors|
  {
    var w := sys.accessors[a];
    && Inv(w)
    && (!Active(sys, a) ==> w.reconciler.Idle?)
    && (Retired(sys, a) ==> w.locked.connection.None?)
  }

  ghost predicate PhaseOk(sys: System, k: ObjectKey)
    requires k in sys.phases && |sys.owners| == |sys.accessors|
  {
    var p := sys.phases[k];
    && p.handle < |sys.accessors| && sys.owners[p.handle] == k
    && (if p.Cleaning? then k !in sys.table else k in sys.table && sys.table[k] == p.handle)
    && (p.Dropping? ==> sys.accessors[p.handle].reconciler.Idle? || sys.accessors[p.handle].reconciler.Disconnecting?)
    && (p.Deleting? ==> sys.accessors[p.handle].locked.connection.None?)
  }

  ghost predicate SystemInv(sys: System) {
    && |sys.owners| == |sys.accessors|
    && (forall a :: 0 <= a < |sys.accessors| ==> AccessorOk(sys, a))
    && (forall k <- sys.table :: sys.table[k] < |sys.owners| && sys.owners[sys.table[k]] == k)
    && (forall k <- sys.phases :: PhaseOk(sys, k))
    && (forall i, k :: 0 <= i < |sys.sources| && k in sys.sources[i] ==>
          k in sys.table || (k in sys.phases && sys.phases[k].Cleaning?))
  }

  lemma ReadersLeaveConnection(config: Config, w: World, s: Step)
    requires Inv(w) && Enabled(w, s) && IsReaderStep(s)
    ensures var w' := Next(config, w, s);
            w'.reconciler == w.reconciler && (w'.locked.connection.None? <==> w.locked.connection.None?)
  {
  }

  /** Accessor `a` moves to `w'`, which suits its place in the table and the phase of its reconcile. */
  lemma AccessorChangeKeepsInv(sys: System, a: nat, w': World)
    requires SystemInv(sys) && a < |sys.accessors| && Inv(w')
    requires Active(sys, a) || w'.reconciler.Idle?
    requires sys.accessors[a].locked.connection.None? && !Active(sys, a) ==> w'.locked.connection.None?
    requires sys.owners[a] in sys.phases && sys.phases[sys.owners[a]].Dropping? ==>
               w'.reconciler.Idle? || w'.reconciler.Disconnecting?
    ensures SystemInv(sys.(accessors := sys.accessors[a := w']))
  {
    var sys' := sys.(accessors := sys.accessors[a := w']);
    assert AccessorOk(sys, a);
    if sys.owners[a] in sys.phases {
      assert PhaseOk(sys, sys.owners[a]);
    }
    forall b | 0 <= b < |sys'.accessors| ensures AccessorOk(sys', b) {
      assert AccessorOk(sys, b);
    }
    forall k <- sys'.phases ensures PhaseOk(sys', k) {
      assert PhaseOk(sys, k);
    }
  }

  lemma ReaderActsKeepsInv(config: Config, sys: System, a: nat, s: Step)
    requires SystemInv(sys) && a < |sys.accessors| && Enabled(sys.accessors[a], s) && IsReaderStep(s)
    ensures SystemInv(ActOn(config, sys, a, s))
  {
    assert AccessorOk(sys, a);
    StepKeepsInv(config, sys.accessors[a], s);
    ReadersLeaveConnection(config, sys.accessors[a], s);
    if sys.owners[a] in sys.phases {
      assert PhaseOk(sys, sys.owners[a]);
    }
    AccessorChangeKeepsInv(sys, a, Next(config, sys.accessors[a], s));
  }

  lemma ReconcilerActsKeepsInv(config: Config, sys: System, a: nat, s: Step)
    requires SystemInv(sys) && a < |sys.accessors| && Enabled(sys.accessors[a], s) && Active(sys, a)
    requires s.DisconnectBegin? || s.DisconnectFinish? || sys.phases[sys.owners[a]].Working?
    ensures SystemInv(ActOn(config, sys, a, s))
    ensures (s.DisconnectBegin? || s.DisconnectFinish?) && Next(config, sys.accessors[a], s).reconciler.Idle? ==>
              Next(config, sys.accessors[a], s).locked.connection.None?
  {
    assert AccessorOk(sys, a);
    StepKeepsInv(config, sys.accessors[a], s);
    AccessorChangeKeepsInv(sys, a, Next(config, sys.accessors[a], s));
  }

  lemma GetKeepsInv(sys: System, key: ObjectKey)
    requires SystemInv(sys) && key !in sys.phases && key in sys.table
    ensures SystemInv(GetOrCreateStep(sys, key))
  {
    var sys' := GetOrCreateStep(sys, key);
    forall a | 0 <= a < |sys'.accessors| ensures AccessorOk(sys', a) {
      assert AccessorOk(sys, a);
    }
    forall k | k in sys'.phases && k != key ensures PhaseOk(sys', k) {
      assert PhaseOk(sys, k);
    }
  }

  lemma CreateKeepsAccessors(sys: System, key: ObjectKey, a: nat)
    requires SystemInv(sys) && key !in sys.phases && key !in sys.table && a <= |sys.accessors|
    ensures AccessorOk(GetOrCreateStep(sys, key), a)
  {
    if a < |sys.accessors| {
      assert AccessorOk(sys, a);
    }
  }

  lemma CreateKeepsPhases(sys: System, key: ObjectKey, k: ObjectKey)
    requires SystemInv(sys) && key !in sys.phases && key !in sys.table && (k == key || k in sys.phases)
    ensures PhaseOk(GetOrCreateStep(sys, key), k)
  {
    if k != key {
      assert PhaseOk(sys, k);
    }
  }

  lemma CreateKeepsInv(sys: System, key: ObjectKey)
    requires SystemInv(sys) && key !in sys.phases && key !in sys.table
    ensures SystemInv(GetOrCreateStep(sys, key))
  {
    var sys' := GetOrCreateStep(sys, key);
    forall a | 0 <= a < |sys'.accessors| ensures AccessorOk(sys', a) {
      CreateKeepsAccessors(sys, key, a);
    }
    forall k <- sys'.phases ensures PhaseOk(sys', k) {
      CreateKeepsPhases(sys, key, k);
    }
  }

  lemma DeleteKeepsInv(config: Config, sys: System, key: ObjectKey)
    requires SystemInv(sys) && SystemEnabled(sys, DeleteAccessor(key))
    ensures SystemInv(SystemNext(config, sys, DeleteAccessor(key)))
  {
    var sys' := SystemNext(config, sys, DeleteAccessor(key));
    assert PhaseOk(sys, key);
    forall a | 0 <= a < |sys'.accessors| ensures AccessorOk(sys', a) {
      assert AccessorOk(sys, a);
    }
    forall k <- sys'.phases ensures PhaseOk(sys', k) {
      assert PhaseOk(sys, k);
    }
  }

  /** Only the phase of `key` changed, and the reconciler of its accessor is idle. */
  lemma PhaseChangeKeepsAccessors(sys: System, sys': System, key: ObjectKey)
    requires SystemInv(sys) && key in sys.phases
    requires sys'.accessors == sys.accessors && sys'.owners == sys.owners && sys'.table == sys.table
    requires sys'.phases - {key} == sys.phases - {key}
    requires sys.accessors[sys.phases[key].handle].reconciler.Idle?
    ensures forall a :: 0 <= a < |sys'.accessors| ==> AccessorOk(sys', a)
    ensures forall k :: k in sys'.phases && k != key ==> PhaseOk(sys', k)
  {
    assert PhaseOk(sys, key);
    forall a | 0 <= a < |sys'.accessors| ensures AccessorOk(sys', a) {
      assert AccessorOk(sys, a);
      if sys.owners[a] != key {
        assert sys.owners[a] in sys.phases - {key} <==> sys.owners[a] in sys'.phases - {key};
      }
    }
    forall k | k in sys'.phases && k != key ensures PhaseOk(sys', k) {
      assert k in sys'.phases - {key} && PhaseOk(sys, k);
    }
  }

  lemma FetchKeepsInv(config: Config, sys: System, step: SystemStep)
    requires SystemInv(sys) && SystemEnabled(sys, step)
    requires step.FetchEnds? || step.FetchReady? || step.FetchNotFound?
    ensures SystemInv(SystemNext(config, sys, step))
  {
    assert PhaseOk(sys, step.key) && AccessorOk(sys, sys.phases[step.key].handle);
    PhaseChangeKeepsAccessors(sys, SystemNext(config, sys, step), step.key);
  }

  lemma SendEventsKeepsInv(config: Config, sys: System, step: SystemStep)
    requires SystemInv(sys) && SystemEnabled(sys, step) && step.SendEvents?
    ensures SystemInv(SystemNext(config, sys, step))
  {
    assert PhaseOk(sys, step.key);
    PhaseChangeKeepsAccessors(sys, SystemNext(config, sys, step), step.key);
  }

  lemma CleanupKeepsInv(config: Config, sys: System, step: SystemStep)
    requires SystemInv(sys) && SystemEnabled(sys, step) && step.Cleanup?
    ensures SystemInv(SystemNext(config, sys, step))
  {
    assert PhaseOk(sys, step.key) && AccessorOk(sys, sys.phases[step.key].handle);
    PhaseChangeKeepsAccessors(sys, SystemNext(config, sys, step), step.key);
  }

  lemma AddSourceKeepsInv(config: Config, sys: System)
    requires SystemInv(sys)
    ensures SystemInv(SystemNext(config, sys, AddSource))
  {
    var sys' := SystemNext(config, sys, AddSource);
    forall a | 0 <= a < |sys'.accessors| ensures AccessorOk(sys', a) {
      assert AccessorOk(sys, a);
    }
    forall k <- sys'.phases ensures PhaseOk(sys', k) {
      assert PhaseOk(sys, k);
    }
  }

  lemma DropKeepsInv(config: Config, sys: System, k: ObjectKey, s: Step)
    requires SystemInv(sys) && SystemEnabled(sys, DropActs(k, s))
    ensures SystemInv(SystemNext(config, sys, DropActs(k, s)))
  {
    assert PhaseOk(sys, k);
    var a := sys.phases[k].handle;
    ReconcilerActsKeepsInv(config, sys, a, s);
    var mid := ActOn(config, sys, a, s);
    if mid.accessors[a].reconciler.Idle? {
      PhaseChangeKeepsAccessors(mid, mid.(phases := sys.phases[k := Deleting(a)]), k);
    }
  }

  lemma SystemStepKeepsInv(config: Config, sys: System, step: SystemStep)
    requires SystemInv(sys) && SystemEnabled(sys, step)
    ensures SystemInv(SystemNext(config, sys, step))
  {
    match step
    case ReconcilerActs(k, s) =>
      assert PhaseOk(sys, k);
      ReconcilerActsKeepsInv(config, sys, sys.phases[k].handle, s);
    case ReaderActs(a, s) => ReaderActsKeepsInv(config, sys, a, s);
    case DropActs(k, s) => DropKeepsInv(config, sys, k, s);
    case GetOrCreate(k) =>
      if k in sys.table {
        GetKeepsInv(sys, k);
      } else {
        CreateKeepsInv(sys, k);
      }
    case DeleteAccessor(k) => DeleteKeepsInv(config, sys, k);
    case FetchEnds(_) => FetchKeepsInv(config, sys, step);
    case FetchReady(_) => FetchKeepsInv(config, sys, step);
    case FetchNotFound(_) => FetchKeepsInv(config, sys, step);
    case SendEvents(_, _, _) => SendEventsKeepsInv(config, sys, step);
    case Cleanup(_) => CleanupKeepsInv(config, sys, step);
    case AddSource => AddSourceKeepsInv(config, sys);
  }

  lemma {:induction false} RunKeepsInv(config: Config, sys: System, steps: seq<SystemStep>)
    requires SystemInv(sys) && SystemCanRun(config, sys, steps)
    ensures SystemInv(SystemRun(config, sys, steps))
  {
    if steps == [] {
    } else {
      RunKeepsInv(config, sys, steps[..|steps|-1]);
      SystemStepKeepsInv(config, SystemRun(config, sys, steps[..|steps|-1]), steps[|steps|-1]);
    }
  }

  // ----- Results -----

  /** With one reconcile per key at a time, no run of the whole system faults on any accessor, reconciled,
      deleted or replaced; and whenever no reconcile of a key is under way, a source remembers the key only if
      the table holds an accessor for it. */
  lemma SystemIsSafe(config: Config, steps: seq<SystemStep>)
    requires SystemCanRun(config, EMPTY, steps)
    ensures var sys := SystemRun(config, EMPTY, steps);
            && (forall a :: 0 <= a < |sys.accessors| ==> sys.accessors[a].faults == {})
            && (forall i, k :: 0 <= i < |sys.sources| && k in sys.sources[i] && k !in sys.phases ==> k in sys.table)
  {
    RunKeepsInv(config, EMPTY, steps);
    var sys := SystemRun(config, EMPTY, steps);
    forall a | 0 <= a < |sys.accessors| ensures sys.accessors[a].faults == {} {
      assert AccessorOk(sys, a);
    }
  }

  /** The operation told its caller that there is no connection. */
  predicate Refused(op: Op) {
    match op
    case OpWatch(_, name, _, result) => result == if name == "" then WatchEmptyName else WatchNotConnected
    case OpGet(_, getter, value) =>
      && (getter.GetClient? || getter.GetReader? || getter.GetRESTConfig? ==> value.NotConnected?)
      && (getter.GetConnected? ==> value == ConnectedIs(false))
    case _ => false
  }

  /** `later` is `earlier` after readers only were turned away. */
  ghost predicate OnlyRefusals(earlier: World, later: World) {
    && later.locked == earlier.locked
    && later.starts == earlier.starts
    && later.caches == earlier.caches
    && |earlier.log| <= |later.log| && later.log[..|earlier.log|] == earlier.log
    && (forall i :: |earlier.log| <= i < |later.log| ==> Refused(later.log[i]))
  }

  lemma RefusesWhenDisconnected(config: Config, w: World, s: Step)
    requires Inv(w) && w.locked.connection.None? && IsReaderStep(s) && Enabled(w, s)
    ensures OnlyRefusals(w, Next(config, w, s))
  {
  }

  lemma RetiredByReader(config: Config, sys: System, handle: nat, s: Step, a: nat)
    requires SystemInv(sys) && SystemEnabled(sys, ReaderActs(handle, s)) && a < |sys.owners| && Retired(sys, a)
    ensures OnlyRefusals(sys.accessors[a], SystemNext(config, sys, ReaderActs(handle, s)).accessors[a])
  {
    assert AccessorOk(sys, a);
    if handle == a {
      RefusesWhenDisconnected(config, sys.accessors[a], s);
    }
  }

  lemma RetiredByOthers(config: Config, sys: System, step: SystemStep, a: nat)
    requires SystemInv(sys) && SystemEnabled(sys, step) && a < |sys.owners| && Retired(sys, a)
    requires !step.ReaderActs?
    ensures var sys' := SystemNext(config, sys, step);
            a < |sys'.accessors| == |sys'.owners| && Retired(sys', a) && sys'.accessors[a] == sys.accessors[a]
  {
    if !step.AddSource? && step.key in sys.phases {
      assert PhaseOk(sys, step.key);
    }
  }

  lemma RetiredStep(config: Config, sys: System, step: SystemStep, a: nat)
    requires SystemInv(sys) && SystemEnabled(sys, step) && a < |sys.owners| && Retired(sys, a)
    ensures var sys' := SystemNext(config, sys, step);
            && a < |sys'.accessors| == |sys'.owners| && Retired(sys', a)
            && OnlyRefusals(sys.accessors[a], sys'.accessors[a])
  {
    if step.ReaderActs? {
      RetiredByReader(config, sys, step.handle, step.reading, a);
    } else {
      RetiredByOthers(config, sys, step, a);
    }
  }

  /** A stale handle is dead for ever: in every continuation, even one that creates the Cluster again under the
      same key, an accessor that left the table keeps its state, starts no watcher and refuses every caller. */
  lemma {:induction false} StaleHandleIsDead(config: Config, sys: System, steps: seq<SystemStep>, a: nat)
    requires SystemInv(sys) && a < |sys.owners| && Retired(sys, a)
    requires SystemCanRun(config, sys, steps)
    ensures var sys' := SystemRun(config, sys, steps);
            && a < |sys'.accessors| == |sys'.owners| && Retired(sys', a)
            && sys'.accessors[a].locked.connection.None?
            && OnlyRefusals(sys.accessors[a], sys'.accessors[a])
  {
    if steps == [] {
      assert AccessorOk(sys, a);
    } else {
      var before := steps[..|steps|-1];
      StaleHandleIsDead(config, sys, before, a);
      RunKeepsInv(config, sys, before);
      RetiredStep(config, SystemRun(config, sys, before), steps[|steps|-1], a);
    }
  }

  // ----- A Cluster that is gone -----

  /** The reconcile has found the Cluster gone and works on accessor `a`. */
  predicate TearsDown(sys: System, key: ObjectKey, a: nat) {
    key in sys.phases && sys.phases[key].handle == a
    && (sys.phases[key].Dropping? || sys.phases[key].Deleting? || sys.phases[key].Cleaning?)
  }

  lemma TearDownGoesOn(config: Config, sys: System, step: SystemStep, key: ObjectKey, a: nat)
    requires TearsDown(sys, key, a) && SystemEnabled(sys, step) && step != Cleanup(key)
    ensures TearsDown(SystemNext(config, sys, step), key, a)
  {
  }

  lemma {:induction false} TearDownIsUnderWay(config: Config, sys: System, key: ObjectKey, steps: seq<SystemStep>)
    requires SystemInv(sys) && SystemEnabled(sys, FetchNotFound(key))
    requires SystemCanRun(config, sys, [FetchNotFound(key)] + steps) && Cleanup(key) !in steps
    ensures TearsDown(SystemRun(config, sys, [FetchNotFound(key)] + steps), key, sys.phases[key].handle)
  {
    var all := [FetchNotFound(key)] + steps;
    if steps == [] {
      assert all[..|all|-1] == [];
    } else {
      var before := steps[..|steps|-1];
      assert all[..|all|-1] == [FetchNotFound(key)] + before;
      TearDownIsUnderWay(config, sys, key, before);
      TearDownGoesOn(config, SystemRun(config, sys, all[..|all|-1]), steps[|steps|-1], key, sys.phases[key].handle);
    }
  }

  lemma CleanupForgets(config: Config, sys: System, key: ObjectKey)
    requires SystemInv(sys) && SystemEnabled(sys, Cleanup(key))
    ensures var sys' := SystemNext(config, sys, Cleanup(key));
            && key !in sys'.table && key !in sys'.phases
            && (forall i :: 0 <= i < |sys'.sources| ==> key !in sys'.sources[i])
            && sys.phases[key].handle < |sys'.owners| == |sys'.accessors| && Retired(sys', sys.phases[key].handle)
            && sys'.accessors[sys.phases[key].handle].locked.connection.None?
  {
    assert PhaseOk(sys, key);
    assert AccessorOk(sys, sys.phases[key].handle);
  }

  /** A reconcile that finds the Cluster gone ends, whatever runs in between, with the key in neither the table nor any
      source, and the accessor it held is out of the table and disconnected. */
  lemma GoneClusterIsForgotten(config: Config, sys: System, key: ObjectKey, steps: seq<SystemStep>)
    requires SystemInv(sys) && SystemEnabled(sys, FetchNotFound(key))
    requires SystemCanRun(config, sys, [FetchNotFound(key)] + steps + [Cleanup(key)]) && Cleanup(key) !in steps
    ensures var sys' := SystemRun(config, sys, [FetchNotFound(key)] + steps + [Cleanup(key)]);
            var a := sys.phases[key].handle;
            && key !in sys'.table && key !in sys'.phases
            && (forall i :: 0 <= i < |sys'.sources| ==> key !in sys'.sources[i])
            && a < |sys'.owners| == |sys'.accessors| && Retired(sys', a) && sys'.accessors[a].locked.connection.None?
  {
    var all := [FetchNotFound(key)] + steps + [Cleanup(key)];
    var before := [FetchNotFound(key)] + steps;
    assert all[..|all|-1] == before;
    RunKeepsInv(config, sys, before);
    TearDownIsUnderWay(config, sys, key, steps);
    CleanupForgets(config, SystemRun(config, sys, before), key);
  }

  // ----- What sources remember -----

  /** The step changes what source `i` remembers of the key. */
  predicate Touches(step: SystemStep, i: nat, key: ObjectKey) {
    (step.SendEvents? && step.key == key && i in step.targets) || step == Cleanup(key)
  }

  /** In every run from any state, a source of that state remembers of a key the time of the last event it sent for it,
      unless the Cluster was found gone since. */
  lemma {:induction false} RememberedTimeIsOfLastEvent(
    config: Config, sys: System, steps: seq<SystemStep>, i: nat, key: ObjectKey, j: nat)
    requires SystemCanRun(config, sys, steps) && j < |steps| && i < |sys.sources|
    requires steps[j].SendEvents? && Touches(steps[j], i, key)
    requires forall l :: j < l < |steps| ==> !Touches(steps[l], i, key)
    ensures var sources := SystemRun(config, sys, steps).sources;
            i < |sources| && key in sources[i] && sources[i][key] == steps[j].now
  {
    var before := steps[..|steps|-1];
    SourcesStay(config, sys, before);
    if j == |before| {
    } else {
      RememberedTimeIsOfLastEvent(config, sys, before, i, key, j);
    }
  }

  lemma {:induction false} SourcesStay(config: Config, sys: System, steps: seq<SystemStep>)
    requires SystemCanRun(config, sys, steps)
    ensures |sys.sources| <= |SystemRun(config, sys, steps).sources|
  {
    if steps == [] {
    } else {
      SourcesStay(config, sys, steps[..|steps|-1]);
    }
  }

  // ----- Every accessor runs the protocol of a single accessor -----

  /** The step that accessor `a` takes in a step of the system, if any. */
  function ActsOn(sys: System, step: SystemStep, a: nat): seq<Step> {
    match step
    case ReconcilerActs(k, s) => if k in sys.phases && sys.phases[k].handle == a then [s] else []
    case DropActs(k, s) => if k in sys.phases && sys.phases[k].handle == a then [s] else []
    case ReaderActs(handle, s) => if handle == a then [s] else []
    case _ => []
  }

  function StepsOf(config: Config, steps: seq<SystemStep>, a: nat): seq<Step>
    requires SystemCanRun(config, EMPTY, steps)
  {
    if steps == [] then []
    else
      var before := steps[..|steps|-1];
      StepsOf(config, before, a) + ActsOn(SystemRun(config, EMPTY, before), steps[|steps|-1], a)
  }

  /** What a step of the system does to its accessors. */
  lemma StepActsOn(config: Config, sys: System, step: SystemStep)
    requires SystemEnabled(sys, step)
    ensures var sys' := SystemNext(config, sys, step);
            && |sys.accessors| <= |sys'.accessors|
            && (forall a: nat :: |sys.accessors| <= a < |sys'.accessors| ==> sys'.accessors[a] == START)
            && (forall a: nat :: |sys.accessors| <= a ==> ActsOn(sys, step, a) == [])
            && (forall a: nat :: a < |sys.accessors| ==>
                  var acts := ActsOn(sys, step, a);
                  if acts == [] then sys'.accessors[a] == sys.accessors[a]
                  else
                    && acts == [acts[0]] && Enabled(sys.accessors[a], acts[0])
                    && sys'.accessors[a] == Next(config, sys.accessors[a], acts[0]))
  {
  }

  lemma {:induction false} NotYetCreated(config: Config, steps: seq<SystemStep>, a: nat)
    requires SystemCanRun(config, EMPTY, steps) && |SystemRun(config, EMPTY, steps).accessors| <= a
    ensures StepsOf(config, steps, a) == []
  {
    if steps == [] {
    } else {
      StepActsOn(config, SystemRun(config, EMPTY, steps[..|steps|-1]), steps[|steps|-1]);
      NotYetCreated(config, steps[..|steps|-1], a);
    }
  }

  lemma RunOneMore(config: Config, w: World, steps: seq<Step>, step: Step)
    requires CanRun(config, w, steps) && Enabled(Run(config, w, steps), step)
    ensures CanRun(config, w, steps + [step])
    ensures Run(config, w, steps + [step]) == Next(config, Run(config, w, steps), step)
  {
    assert (steps + [step])[..|steps + [step]|-1] == steps;
  }

  /** Every accessor of every run of the system is in the state of a run of `AccessorProtocol`, so all that is proved
      there of single accessors holds of it. */
  lemma {:induction false} AccessorsRunTheProtocol(config: Config, steps: seq<SystemStep>, a: nat)
    requires SystemCanRun(config, EMPTY, steps) && a < |SystemRun(config, EMPTY, steps).accessors|
    ensures var own := StepsOf(config, steps, a);
            CanRun(config, START, own) && Run(config, START, own) == SystemRun(config, EMPTY, steps).accessors[a]
  {
    if steps == [] {
    } else {
      var before, step := steps[..|steps|-1], steps[|steps|-1];
      var sys := SystemRun(config, EMPTY, before);
      StepActsOn(config, sys, step);
      if |sys.accessors| <= a {
        NotYetCreated(config, before, a);
      } else {
        AccessorsRunTheProtocol(config, before, a);
        var acts := ActsOn(sys, step, a);
        if acts == [] {
          assert StepsOf(config, before, a) + acts == StepsOf(config, before, a);
        } else {
          RunOneMore(config, START, StepsOf(config, before, a), acts[0]);
        }
      }
    }
  }

  /** In every run of the system the caches of every accessor, whatever became of it, are accounted for. */
  lemma SystemCachesAreConserved(config: Config, steps: seq<SystemStep>, a: nat)
    requires SystemCanRun(config, EMPTY, steps) && a < |SystemRun(config, EMPTY, steps).accessors|
    requires !CacheInFlight(SystemRun(config, EMPTY, steps).accessors[a])
    ensures var w := SystemRun(config, EMPTY, steps).accessors[a];
            && Legal(config, INITIAL, w.log)
            && RunningCount(w.caches) == (if w.locked.connection.Some? then 1 else 0) + LeakCount(w.log)
            && (forall c <- Installed(w.log) :: c < |w.caches| &&
                  (w.caches[c] == Running <==> w.locked.connection.Some? && w.locked.connection.value.cache == c))
  {
    AccessorsRunTheProtocol(config, steps, a);
    InterleavingsRefineAtomicRuns(config, StepsOf(config, steps, a));
    CachesAreConservedInEveryInterleaving(config, StepsOf(config, steps, a));
  }

  /** In every run of the system every value that any accessor ever returned is what its log says. */
  lemma SystemAnswersAreInTheLogs(config: Config, steps: seq<SystemStep>, a: nat)
    requires SystemCanRun(config, EMPTY, steps) && a < |SystemRun(config, EMPTY, steps).accessors|
    ensures var log := SystemRun(config, EMPTY, steps).accessors[a].log;
            forall i: nat :: i < |log| ==> AccessorAnswers.Answered(config, log, i)
  {
    AccessorsRunTheProtocol(config, steps, a);
    AccessorAnswers.AnswersInEveryInterleaving(config, StepsOf(config, steps, a));
  }

  /** Of an accessor that left the table nothing runs but the caches of connects that failed at key generation. */
  lemma OnlyLeaksOutlive(config: Config, steps: seq<SystemStep>, a: nat)
    requires SystemCanRun(config, EMPTY, steps)
    requires var sys := SystemRun(config, EMPTY, steps); a < |sys.owners| && Retired(sys, a)
    ensures var sys := SystemRun(config, EMPTY, steps);
            && a < |sys.accessors|
            && RunningCount(sys.accessors[a].caches) == LeakCount(sys.accessors[a].log)
            && (forall c <- Installed(sys.accessors[a].log) ::
                  c < |sys.accessors[a].caches| && sys.accessors[a].caches[c] == Stopped)
  {
    var sys := SystemRun(config, EMPTY, steps);
    RunKeepsInv(config, EMPTY, steps);
    assert AccessorOk(sys, a);
    assert sys.owners[a] in sys.phases ==> PhaseOk(sys, sys.owners[a]);
    SystemCachesAreConserved(config, steps, a);
  }

  /** The key whose reconcile takes the step, if any. */
  function ReconciledKey(step: SystemStep): Option<ObjectKey> {
    if step.ReaderActs? || step.AddSource? then None else Some(step.key)
  }

  /** Reconciling one key never changes what the system holds for another key: its table entry, its phase, every
      accessor ever created for it and its event times. */
  lemma ReconcilesAreIsolated(config: Config, sys: System, step: SystemStep, other: ObjectKey)
    requires SystemInv(sys) && SystemEnabled(sys, step)
    requires ReconciledKey(step).Some? && ReconciledKey(step).value != other
    ensures var sys' := SystemNext(config, sys, step);
            && (other in sys'.table <==> other in sys.table)
            && (other in sys.table ==> sys'.table[other] == sys.table[other])
            && (other in sys'.phases <==> other in sys.phases)
            && (other in sys.phases ==> sys'.phases[other] == sys.phases[other])
            && (forall a :: 0 <= a < |sys.accessors| && sys.owners[a] == other ==>
                  sys'.accessors[a] == sys.accessors[a])
            && |sys'.sources| == |sys.sources|
            && (forall i :: 0 <= i < |sys.sources| ==>
                  && (other in sys'.sources[i] <==> other in sys.sources[i])
                  && (other in sys.sources[i] ==> sys'.sources[i][other] == sys.sources[i][other]))
  {
    var key := step.key;
    if key in sys.phases {
      assert PhaseOk(sys, key);
    }
  }
}
