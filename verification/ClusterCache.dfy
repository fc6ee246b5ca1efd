/** The cluster cache object: the map of accessors, the sources of Cluster events, and `Reconcile`. */
module ClusterCache {
  import opened Base
  import opened LockedState
  import opened Reconcile
  import opened Accessor
  import Notify

  /** What reading the Cluster object gives. */
  datatype Fetch = NotFound | ReadError | InfrastructureNotReady | ReadyCluster

  /** What the outside world answers during one reconcile, clock readings included. */
  datatype Answers = Answers(
    connectCheck: Time, environment: Environment, generated: Option<nat>, connectEnd: Time,
    probeCheck: Time, probe: ProbeOutcome, probeEnd: Time, eventsAt: Time)
  {
    function ToInput(built: Built<StoppableCache>): Input<StoppableCache> {
      Input(connectCheck, built, generated, connectEnd, probeCheck, probe, probeEnd, eventsAt)
    }
  }

  datatype Event = Event(key: ObjectKey, at: Time, reasons: seq<Notify.Reason>)

  /** The map and the channel of a cluster source. Copies of a source share them. */
  class SourceMemory {
    var lastEventSentTimeByCluster: map<ObjectKey, Time>
    var channel: seq<Event>

    constructor ()
      ensures lastEventSentTimeByCluster == map[] && channel == []
    {
      lastEventSentTimeByCluster, channel := map[], [];
    }

    function LastSent(key: ObjectKey): Time reads this {
      if key in lastEventSentTimeByCluster then lastEventSentTimeByCluster[key] else ZERO_TIME
    }
  }

  /** `clusterSource`, a value that refers to its memory. */
  datatype ClusterSource = ClusterSource(controllerName: string, durations: seq<int>, memory: SourceMemory)
  {
    ghost function View(): SourceView reads memory {
      SourceView(durations, memory.lastEventSentTimeByCluster, memory.channel)
    }
  }

  ghost function ViewsOf(sources: seq<ClusterSource>): seq<SourceView> reads set s <- sources :: s.memory {
    seq(|sources|, i requires 0 <= i < |sources| reads set s <- sources :: s.memory => sources[i].View())
  }

  /** A source as a value: what it asked for, what it remembers and what it has sent. */
  datatype SourceView = SourceView(durations: seq<int>, lastSent: map<ObjectKey, Time>, channel: seq<Event>)

  /** A source after the event step: with a reason, one event that gives exactly the reasons, and it is remembered. */
  function Told(v: SourceView, key: ObjectKey, now: Time, success: Time, didConnect: bool, didDisconnect: bool)
    : SourceView {
    var reasons := Notify.Reasons(now, success, LastSentFor(v, key), didConnect, didDisconnect, v.durations);
    if reasons == [] then v
    else v.(lastSent := v.lastSent[key := now], channel := v.channel + [Event(key, now, reasons)])
  }

  /** A source that has forgotten a key. */
  function Forgetful(v: SourceView, key: ObjectKey): SourceView {
    v.(lastSent := v.lastSent - {key})
  }

  /** When a source last sent an event for a key, zero if it does not remember. */
  function LastSentFor(v: SourceView, key: ObjectKey): Time {
    if key in v.lastSent then v.lastSent[key] else ZERO_TIME
  }

  /** For one key, the event step of a source is the event step of `Notify`, and forgetting the key is forgetting
      there, so the runs of `Notify` are what happens to every source. */
  lemma SourceStepsAreNotifySteps(
    v: SourceView, m: Notify.Memory, key: ObjectKey, now: Time, success: Time, didConnect: bool, didDisconnect: bool)
    requires m.lastSent == LastSentFor(v, key)
    ensures var m' := Notify.After(v.durations, m, Notify.EventStep(now, success, didConnect, didDisconnect));
            var v' := Told(v, key, now, success, didConnect, didDisconnect);
            && m'.lastSent == LastSentFor(v', key)
            && (if m'.log == m.log then v' == v
                else
                  && m'.log == m.log + [m'.log[|m.log|]]
                  && v'.channel == v.channel + [Event(key, now, m'.log[|m.log|].reasons)])
    ensures Notify.After(v.durations, m, Notify.Forget(now)).lastSent == LastSentFor(Forgetful(v, key), key)
  {
  }

  function AllTold(vs: seq<SourceView>, key: ObjectKey, now: Time, success: Time, didConnect: bool, didDisconnect: bool)
    : seq<SourceView>
  {
    seq(|vs|, i requires 0 <= i < |vs| => Told(vs[i], key, now, success, didConnect, didDisconnect))
  }

  function AllForgetful(vs: seq<SourceView>, key: ObjectKey): seq<SourceView> {
    seq(|vs|, i requires 0 <= i < |vs| => Forgetful(vs[i], key))
  }

  /** Sources remember only these keys. */
  predicate Remember(vs: seq<SourceView>, keys: set<ObjectKey>) {
    forall v <- vs :: v.lastSent.Keys <= keys
  }

  /** At most the event time of this key and what was sent changed. */
  predicate OnlyTouched(vs: seq<SourceView>, ws: seq<SourceView>, key: ObjectKey) {
    |vs| == |ws| && forall i :: 0 <= i < |vs| ==>
      vs[i].durations == ws[i].durations && vs[i].lastSent - {key} == ws[i].lastSent - {key}
  }

  lemma TellingTouchesOnlyKey(
    vs: seq<SourceView>, key: ObjectKey, now: Time, success: Time, didConnect: bool, didDisconnect: bool,
    keys: set<ObjectKey>)
    requires Remember(vs, keys) && key in keys
    ensures var ws := AllTold(vs, key, now, success, didConnect, didDisconnect);
            && Remember(ws, keys) && OnlyTouched(vs, ws, key)
            && (forall i :: 0 <= i < |vs| ==> vs[i].channel <= ws[i].channel)
  {
    var ws := AllTold(vs, key, now, success, didConnect, didDisconnect);
    forall i | 0 <= i < |vs|
      ensures ws[i].lastSent.Keys <= keys && vs[i].lastSent - {key} == ws[i].lastSent - {key}
    {
      assert vs[i] in vs;
    }
  }

  lemma ForgettingTouchesOnlyKey(vs: seq<SourceView>, key: ObjectKey, keys: set<ObjectKey>)
    requires Remember(vs, keys)
    ensures var ws := AllForgetful(vs, key);
            && Remember(ws, keys - {key}) && OnlyTouched(vs, ws, key)
            && (forall i :: 0 <= i < |vs| ==> ws[i].channel == vs[i].channel)
  {
    var ws := AllForgetful(vs, key);
    forall i | 0 <= i < |vs|
      ensures ws[i].lastSent.Keys <= keys - {key} && vs[i].lastSent - {key} == ws[i].lastSent - {key}
    {
      assert vs[i] in vs;
    }
  }

  /** What an attempt to connect made: what the environment gives; of the caches that were allocated only the one of
      the connection runs, unless the same reconcile dropped it again. Without an attempt nothing is made. */
  ghost predicate MadeBy(
    answers: Answers, r: Report<StoppableCache>, built: Built<StoppableCache>, made: set<StoppableCache>)
    reads made
  {
    && (if r.attempted then answers.environment.Gives(built) && (built.Built? ==> built.cache in made)
        else built.NotBuilt? && made == {})
    && (forall c <- made :: c.Running() <==> built.Built? && c == built.cache && !(r.didConnect && r.didDisconnect))
  }

  /** What a reconcile decides about an accessor, in terms of the answers it got. */
  ghost predicate Decided(
    config: Config, s: Locked<StoppableCache>, answers: Answers, built: Built<StoppableCache>,
    s': Locked<StoppableCache>, wait: int, didConnect: bool, didDisconnect: bool)
  {
    if s.connection.Some? then
      !didConnect
      && ProbeDecides(config, s, answers.probeCheck, answers.probe, answers.probeEnd, s', wait, didDisconnect)
    else
      && (s.lastError == ZERO_TIME || s.lastError + config.retryInterval <= answers.connectCheck ==>
            answers.environment.Gives(built))
      && ConnectDecides(config, s, answers.connectCheck, built, answers.generated, answers.connectEnd,
                        answers.probeCheck, answers.probe, answers.probeEnd, s', wait, didConnect, didDisconnect)
  }

  lemma ReadyReconcileDecides(
    config: Config, s: Locked<StoppableCache>, answers: Answers,
    built: Built<StoppableCache>, made: set<StoppableCache>)
    requires MadeBy(answers, ReconcileReady(config, s, answers.ToInput(built)), built, made)
    ensures var r := ReconcileReady(config, s, answers.ToInput(built));
            && |r.durations| == 1
            && Decided(config, s, answers, built, r.state, r.durations[0], r.didConnect, r.didDisconnect)
  {
    ReconcileDecides(config, s, answers.ToInput(built));
  }

  /** The ready path of `Reconcile` on an accessor. */
  method ReconcileAccessor(accessor: ClusterAccessor, answers: Answers)
    returns (durations: seq<int>, didConnect: bool, didDisconnect: bool,
             ghost built: Built<StoppableCache>, ghost made: set<StoppableCache>)
    requires accessor.Valid()
    modifies accessor.Footprint()
    ensures accessor.Valid() && fresh(accessor.Footprint() - old(accessor.Footprint())) && fresh(made)
    ensures var r := ReconcileReady(accessor.config, old(accessor.View()), answers.ToInput(built));
            && accessor.View() == r.state
            && durations == r.durations && didConnect == r.didConnect && didDisconnect == r.didDisconnect
            && MadeBy(answers, r, built, made)
    ensures |durations| == 1
    ensures Decided(accessor.config, old(accessor.View()), answers, built,
                    accessor.View(), durations[0], didConnect, didDisconnect)
    ensures old(accessor.connection) != null && didDisconnect ==> old(accessor.connection).cache.stopped
  {
    ghost var before := accessor.View();
    didConnect, didDisconnect, durations, built, made := false, false, [], NotBuilt, {};
    var connected := accessor.Connected();
    if !connected {
      var (wait, throttled) := ShouldRequeue(
        answers.connectCheck, accessor.lastConnectionCreationError, accessor.config.retryInterval);
      if throttled {
        durations := durations + [wait];
      } else {
        var err;
        err, built, made := accessor.Connect(answers.environment, answers.generated, answers.connectEnd);
        if err.Some? {
          durations := durations + [accessor.config.retryInterval];
        } else {
          didConnect, connected := true, true;
        }
      }
    }
    if connected {
      var (wait, throttled) := ShouldRequeue(answers.probeCheck, accessor.lastProbe, accessor.config.probeInterval);
      if throttled {
        durations := durations + [wait];
      } else {
        var tooMany, unauthorized := accessor.HealthCheck(answers.probe, answers.probeEnd);
        if tooMany || unauthorized {
          accessor.Disconnect();
          didDisconnect := true;
        }
        if unauthorized {
          durations := durations + [MILLISECOND];
        } else if tooMany {
          durations := durations + [accessor.config.retryInterval];
        } else {
          durations := durations + [accessor.config.probeInterval];
        }
      }
    }
    ReadyReconcileDecides(accessor.config, before, answers, built, made);
  }

  class ClusterCache {
    const config: Config
    var clusterAccessors: map<ObjectKey, ClusterAccessor>
    var clusterSources: seq<ClusterSource>

    ghost function Memories(): set<SourceMemory> reads `clusterSources {
      set s <- clusterSources :: s.memory
    }

    /** The accessor of one key and what it owns. */
    ghost function FootprintOf(key: ObjectKey): set<object>
      reads this, clusterAccessors.Values, set a <- clusterAccessors.Values :: a.connection
    {
      if key in clusterAccessors then clusterAccessors[key].Footprint() else {}
    }

    /** Accessors are valid and belong to their keys, as do the connections and caches they own, so they share
        nothing. */
    ghost predicate AccessorsValid() reads * {
      forall k <- clusterAccessors :: AccessorOk(clusterAccessors[k], k)
    }

    ghost predicate AccessorOk(a: ClusterAccessor, k: ObjectKey)
      reads a, a.connection, if a.connection == null then {} else {a.connection.cache}
    {
      a.Valid() && a.cluster == k && a.config == config
    }

    /** Sources share no memory. */
    ghost predicate SourcesDistinct() reads `clusterSources {
      forall i, j :: 0 <= i < j < |clusterSources| ==> clusterSources[i].memory != clusterSources[j].memory
    }

    ghost function SourceViews(): seq<SourceView> reads `clusterSources, Memories() {
      ViewsOf(clusterSources)
    }

    /** In all: sources remember only keys that have an accessor. */
    ghost predicate Valid() reads * {
      AccessorsValid() && SourcesDistinct() && Remember(SourceViews(), clusterAccessors.Keys)
    }

    constructor (config: Config)
      ensures Valid() && clusterAccessors == map[] && clusterSources == [] && this.config == config
    {
      this.config := config;
      clusterAccessors, clusterSources := map[], [];
    }

    /** `getOrCreateClusterAccessor` */
    method GetOrCreateClusterAccessor(key: ObjectKey) returns (accessor: ClusterAccessor)
      requires Valid()
      modifies this`clusterAccessors
      ensures Valid()
      ensures clusterAccessors == old(clusterAccessors)[key := accessor]
      ensures if key in old(clusterAccessors) then accessor == old(clusterAccessors[key])
              else fresh(accessor) && accessor.connection == null
      ensures accessor.View() == old(ViewOf(key)) && OtherAccessorsUntouched(key)
    {
      if key in clusterAccessors {
        accessor := clusterAccessors[key];
      } else {
        accessor := new ClusterAccessor(key, config);
        clusterAccessors := clusterAccessors[key := accessor];
      }
    }

    /** `GetClusterSource` */
    method GetClusterSource(controllerName: string, durations: seq<int>) returns (source: ClusterSource)
      requires Valid()
      modifies this`clusterSources
      ensures Valid() && fresh(source.memory)
      ensures clusterSources == old(clusterSources) + [source]
      ensures SourceViews() == old(SourceViews()) + [SourceView(durations, map[], [])]
    {
      var memory := new SourceMemory();
      source := ClusterSource(controllerName, durations, memory);
      clusterSources := clusterSources + [source];
      assert SourceViews() == old(SourceViews()) + [source.View()];
    }

    /** `cleanupClusterSourcesForCluster` */
    method CleanupClusterSourcesForCluster(key: ObjectKey)
      requires SourcesDistinct()
      modifies Memories()
      ensures SourceViews() == AllForgetful(old(SourceViews()), key)
    {
      var i := 0;
      while i < |clusterSources|
        invariant 0 <= i <= |clusterSources|
        invariant forall j :: 0 <= j < i ==> clusterSources[j].View() == Forgetful(old(clusterSources[j].View()), key)
        invariant forall j :: i <= j < |clusterSources| ==> unchanged(clusterSources[j].memory)
      {
        var memory := clusterSources[i].memory;
        memory.lastEventSentTimeByCluster := memory.lastEventSentTimeByCluster - {key};
        i := i + 1;
      }
    }

    /** The turn of one source in `sendEventsToClusterSources`. */
    method SendEvent(
      source: ClusterSource, key: ObjectKey, now: Time, success: Time, didConnect: bool, didDisconnect: bool)
      modifies source.memory
      ensures source.View() == Told(old(source.View()), key, now, success, didConnect, didDisconnect)
    {
      var reasons := Notify.ShouldSendEvent(
        now, success, source.memory.LastSent(key), didConnect, didDisconnect, source.durations);
      if |reasons| > 0 {
        source.memory.channel := source.memory.channel + [Event(key, now, reasons)];
        source.memory.lastEventSentTimeByCluster := source.memory.lastEventSentTimeByCluster[key := now];
      }
    }

    /** `sendEventsToClusterSources` */
    method SendEventsToClusterSources(key: ObjectKey, now: Time, success: Time, didConnect: bool, didDisconnect: bool)
      requires SourcesDistinct()
      modifies Memories()
      ensures SourceViews() == AllTold(old(SourceViews()), key, now, success, didConnect, didDisconnect)
    {
      var i := 0;
      while i < |clusterSources|
        invariant 0 <= i <= |clusterSources|
        invariant forall j :: 0 <= j < i ==>
          clusterSources[j].View() == Told(old(clusterSources[j].View()), key, now, success, didConnect, didDisconnect)
        invariant forall j :: i <= j < |clusterSources| ==> unchanged(clusterSources[j].memory)
      {
        SendEvent(clusterSources[i], key, now, success, didConnect, didDisconnect);
        i := i + 1;
      }
    }

    /** The state of the accessor of a key, that of a new one if there is none. */
    ghost function ViewOf(key: ObjectKey): Locked<StoppableCache> reads * {
      if key in clusterAccessors then clusterAccessors[key].View() else Fresh()
    }

    /** The cache of the connection of a key, or null. */
    ghost function CacheOf(key: ObjectKey): StoppableCache? reads * {
      if key in clusterAccessors && clusterAccessors[key].connection != null then clusterAccessors[key].connection.cache
      else null
    }

    /** No other key's accessor was replaced or changed. */
    twostate predicate OtherAccessorsUntouched(key: ObjectKey) reads * {
      && clusterAccessors.Keys - {key} == old(clusterAccessors.Keys) - {key}
      && (forall k :: k in old(clusterAccessors) && k != key ==>
            && k in clusterAccessors && clusterAccessors[k] == old(clusterAccessors[k])
            && clusterAccessors[k].View() == old(clusterAccessors[k].View()))
    }

    /** No event time of another key changed. */
    twostate predicate OtherEventsUntouched(key: ObjectKey) reads `clusterSources, Memories() {
      clusterSources == old(clusterSources) && OnlyTouched(old(SourceViews()), SourceViews(), key)
    }

    /** An accessor of another key stays as it was while its objects do. */
    twostate lemma OthersStay(key: ObjectKey)
      requires old(AccessorsValid()) && clusterAccessors == old(clusterAccessors)
      requires forall k :: k in clusterAccessors && k != key ==>
                 var a := clusterAccessors[k];
                 unchanged(a) && (a.connection != null ==> unchanged(a.connection) && unchanged(a.connection.cache))
      ensures forall k :: k in clusterAccessors && k != key ==>
                AccessorOk(clusterAccessors[k], k) && clusterAccessors[k].View() == old(clusterAccessors[k].View())
    {
      forall k | k in clusterAccessors && k != key
        ensures AccessorOk(clusterAccessors[k], k) && clusterAccessors[k].View() == old(clusterAccessors[k].View())
      {
        assert old(AccessorOk(clusterAccessors[k], k));
      }
    }

    /** The Cluster is gone: disconnect and forget the accessor. */
    method DropAccessor(key: ObjectKey, accessor: ClusterAccessor)
      requires AccessorsValid() && key in clusterAccessors && clusterAccessors[key] == accessor
      modifies this`clusterAccessors, FootprintOf(key)
      ensures AccessorsValid() && OtherAccessorsUntouched(key) && SourceViews() == old(SourceViews())
      ensures clusterAccessors == old(clusterAccessors) - {key} && accessor.connection == null
      ensures old(accessor.connection) != null ==> old(accessor.connection).cache.stopped
    {
      assert AccessorOk(accessor, key);
      accessor.Disconnect();
      OthersStay(key);
      clusterAccessors := clusterAccessors - {key};
    }

    /** The Cluster is ready: connect, probe or wait. */
    method ServeAccessor(key: ObjectKey, accessor: ClusterAccessor, answers: Answers)
      returns (durations: seq<int>, didConnect: bool, didDisconnect: bool,
               ghost built: Built<StoppableCache>, ghost made: set<StoppableCache>)
      requires AccessorsValid() && key in clusterAccessors && clusterAccessors[key] == accessor
      modifies FootprintOf(key)
      ensures AccessorsValid() && OtherAccessorsUntouched(key) && SourceViews() == old(SourceViews()) && fresh(made)
      ensures var r := ReconcileReady(config, old(accessor.View()), answers.ToInput(built));
              && accessor.View() == r.state
              && durations == r.durations && didConnect == r.didConnect && didDisconnect == r.didDisconnect
              && MadeBy(answers, r, built, made)
      ensures old(CacheOf(key)) != null && didDisconnect ==> old(CacheOf(key)).stopped
    {
      assert AccessorOk(accessor, key);
      durations, didConnect, didDisconnect, built, made := ReconcileAccessor(accessor, answers);
      OthersStay(key);
      assert AccessorOk(accessor, key);
    }

    /** Objects of sources are not objects of accessors. */
    twostate lemma SourcesDoNotTouchAccessors()
      requires old(AccessorsValid())
      requires clusterAccessors == old(clusterAccessors)
      requires forall k :: k in clusterAccessors ==>
                 var a := clusterAccessors[k];
                 unchanged(a) && (a.connection != null ==> unchanged(a.connection) && unchanged(a.connection.cache))
      ensures AccessorsValid()
      ensures forall k :: k in clusterAccessors ==> clusterAccessors[k].View() == old(clusterAccessors[k].View())
    {
      forall k | k in clusterAccessors
        ensures AccessorOk(clusterAccessors[k], k) && clusterAccessors[k].View() == old(clusterAccessors[k].View())
      {
        assert old(AccessorOk(clusterAccessors[k], k));
      }
    }

    method DropCluster(key: ObjectKey, accessor: ClusterAccessor)
      requires Valid() && key in clusterAccessors && clusterAccessors[key] == accessor
      modifies this`clusterAccessors, FootprintOf(key), Memories()
      ensures Valid() && OtherAccessorsUntouched(key) && OtherEventsUntouched(key)
      ensures key !in clusterAccessors && accessor.connection == null
      ensures old(accessor.connection) != null ==> old(accessor.connection).cache.stopped
      ensures SourceViews() == AllForgetful(old(SourceViews()), key)
    {
      ForgettingTouchesOnlyKey(SourceViews(), key, clusterAccessors.Keys);
      DropAccessor(key, accessor);
      label dropped:
      CleanupClusterSourcesForCluster(key);
      SourcesDoNotTouchAccessors@dropped();
    }

    /** Telling the sources leaves every accessor alone. */
    method Announce(key: ObjectKey, now: Time, success: Time, didConnect: bool, didDisconnect: bool)
      requires Valid() && key in clusterAccessors
      modifies Memories()
      ensures Valid() && OtherEventsUntouched(key)
      ensures SourceViews() == AllTold(old(SourceViews()), key, now, success, didConnect, didDisconnect)
      ensures forall k :: k in clusterAccessors ==> clusterAccessors[k].View() == old(clusterAccessors[k].View())
    {
      TellingTouchesOnlyKey(SourceViews(), key, now, success, didConnect, didDisconnect, clusterAccessors.Keys);
      SendEventsToClusterSources(key, now, success, didConnect, didDisconnect);
      SourcesDoNotTouchAccessors();
    }

    method ServeCluster(key: ObjectKey, accessor: ClusterAccessor, answers: Answers)
      returns (requeueAfter: int, ghost built: Built<StoppableCache>, ghost made: set<StoppableCache>)
      requires Valid() && key in clusterAccessors && clusterAccessors[key] == accessor
      modifies FootprintOf(key), Memories()
      ensures Valid() && OtherAccessorsUntouched(key) && OtherEventsUntouched(key) && fresh(made)
      ensures var r := ReconcileReady(config, old(accessor.View()), answers.ToInput(built));
              var success := r.state.health.lastSuccess;
              && accessor.View() == r.state && r.durations == [requeueAfter]
              && SourceViews() ==
                   AllTold(old(SourceViews()), key, answers.eventsAt, success, r.didConnect, r.didDisconnect)
              && MadeBy(answers, r, built, made)
              && (old(CacheOf(key)) != null && r.didDisconnect ==> old(CacheOf(key)).stopped)
    {
      ghost var before := accessor.View();
      var durations, didConnect, didDisconnect;
      durations, didConnect, didDisconnect, built, made := ServeAccessor(key, accessor, answers);
      Announce(key, answers.eventsAt, accessor.lastProbeSuccess, didConnect, didDisconnect);
      requeueAfter := MinDurationOrDefault(durations, DEFAULT_REQUEUE_AFTER);
      ExactlyOneDuration(config, before, answers.ToInput(built), requeueAfter);
    }

    /** `Reconcile`. The result is the duration to requeue after, if any; `built` is what a connect attempt built and
        `made` holds the caches it allocated. */
    method Reconcile(key: ObjectKey, fetch: Fetch, answers: Answers)
      returns (requeueAfter: Option<int>, ghost built: Built<StoppableCache>, ghost made: set<StoppableCache>)
      requires Valid()
      modifies this`clusterAccessors, FootprintOf(key), Memories()
      ensures Valid() && OtherAccessorsUntouched(key) && OtherEventsUntouched(key) && fresh(made)
      ensures fetch.NotFound? ==>
                && key !in clusterAccessors && requeueAfter.None?
                && SourceViews() == AllForgetful(old(SourceViews()), key)
                && (key in old(clusterAccessors) ==> old(clusterAccessors[key]).connection == null)
                && (old(CacheOf(key)) != null ==> old(CacheOf(key)).stopped)
      ensures !fetch.NotFound? ==>
                && key in clusterAccessors
                && (key in old(clusterAccessors) ==> clusterAccessors[key] == old(clusterAccessors[key]))
      ensures fetch.ReadError? || fetch.InfrastructureNotReady? ==>
                && ViewOf(key) == old(ViewOf(key)) && SourceViews() == old(SourceViews())
                && requeueAfter == if fetch.ReadError? then Some(10_000_000_000) else None
      ensures fetch.ReadyCluster? ==>
                var r := ReconcileReady(config, old(ViewOf(key)), answers.ToInput(built));
                var success := r.state.health.lastSuccess;
                && ViewOf(key) == r.state
                && requeueAfter.Some? && r.durations == [requeueAfter.value]
                && SourceViews() ==
                     AllTold(old(SourceViews()), key, answers.eventsAt, success, r.didConnect, r.didDisconnect)
                && MadeBy(answers, r, built, made)
                && (old(CacheOf(key)) != null && r.didDisconnect ==> old(CacheOf(key)).stopped)
                && Decided(config, old(ViewOf(key)), answers, built,
                           ViewOf(key), requeueAfter.value, r.didConnect, r.didDisconnect)
    {
      built, made, requeueAfter := NotBuilt, {}, None;
      var accessor := GetOrCreateClusterAccessor(key);
      match fetch {
        case NotFound =>
          DropCluster(key, accessor);
        case ReadError =>
          requeueAfter := Some(DEFAULT_REQUEUE_AFTER);
        case InfrastructureNotReady =>
        case ReadyCluster =>
          var d;
          d, built, made := ServeCluster(key, accessor, answers);
          requeueAfter := Some(d);
          ReadyReconcileDecides(config, old(ViewOf(key)), answers, built, made);
      }
    }
  }
}
