/** The accessor as the object it is: fields updated in place by `Connect`, `Disconnect`, `HealthCheck` and
    `Watch`, and the caches it starts and stops. Each method is proved to be the atomic operation of
    `LockedState` on the object's state. Calls to the outside world are parameters. */
module Accessor {
  import opened Base
  import opened LockedState

  /** `stoppableCache`: a cache with the function that cancels its context. */
  class StoppableCache {
    ghost const cluster: ObjectKey   // the cluster it was made for
    var started: bool
    var stopped: bool
    var cancellations: nat
    var informers: seq<string>       // names of the watchers started on it, in order

    ghost predicate Valid() reads this {
      cancellations == if stopped then 1 else 0
    }

    predicate Running() reads this {
      started && !stopped
    }

    constructor (ghost cluster: ObjectKey)
      ensures Valid() && this.cluster == cluster && !started && !stopped && informers == []
    {
      this.cluster := cluster;
      started, stopped, cancellations, informers := false, false, 0, [];
    }

    method Start()
      requires Valid() && !started
      modifies this`started
      ensures Valid() && started
    {
      started := true;
    }

    /** Cancels the context, unless that was done already: however often it is called, once. */
    method Stop()
      requires Valid()
      modifies this`stopped, this`cancellations
      ensures Valid() && stopped && cancellations == 1
    {
      if stopped {
        return;
      }
      stopped := true;
      cancellations := cancellations + 1;
    }

    /** `Watcher.Watch` of a watcher that accepts: an informer is added. It must not be asked of a stopped cache. */
    method AddInformer(name: string)
      requires Valid() && Running()
      modifies this`informers
      ensures Valid() && informers == old(informers) + [name]
    {
      informers := informers + [name];
    }
  }

  /** What the outside world answers while a connection is built; `onCluster` is missing if detecting whether the
      controller runs on the workload cluster failed, `indexes` says which indexes could be added. */
  datatype Environment = Environment(
    restConfigOk: bool, httpClientOk: bool, uncachedClientOk: bool, onCluster: Option<bool>,
    inClusterConfigOk: bool, inClusterHttpClientOk: bool,
    cacheOk: bool, indexes: seq<bool>, cachedClientOk: bool, synced: bool,
    restConfig: Handle, restClient: Handle, inClusterRestClient: Handle, cachedClient: Handle)
  {
    predicate ReachesCache() {
      && restConfigOk && httpClientOk && uncachedClientOk && onCluster.Some?
      && (onCluster.value ==> inClusterConfigOk && inClusterHttpClientOk)
    }

    predicate Succeeds() {
      ReachesCache() && cacheOk && (forall i :: 0 <= i < |indexes| ==> indexes[i]) && cachedClientOk && synced
    }

    /** What `createConnection` builds: something exactly if every step succeeds, and then from these clients. */
    predicate Gives(built: Built<StoppableCache>) {
      && (built.Built? <==> Succeeds())
      && (Succeeds() ==>
            && built.restConfig == restConfig && built.cachedClient == cachedClient
            && built.restClient == if onCluster.value then inClusterRestClient else restClient)
    }
  }

  /** `createCachedClient`. `made` collects the caches that were allocated: of those, only the one that is
      returned is left running. */
  method CreateCachedClient(ghost cluster: ObjectKey, env: Environment)
    returns (cache: StoppableCache?, ghost made: set<StoppableCache>)
    ensures fresh(made)
    ensures forall c <- made :: c.Valid() && c.cluster == cluster && c.informers == [] && (c.Running() <==> c == cache)
    ensures cache != null ==> cache in made
    ensures cache != null <==>
              env.cacheOk && (forall i :: 0 <= i < |env.indexes| ==> env.indexes[i]) && env.cachedClientOk && env.synced
  {
    made := {};
    if !env.cacheOk {
      return null, made;
    }
    var c := new StoppableCache(cluster);
    made := {c};
    var i := 0;
    while i < |env.indexes|
      invariant 0 <= i <= |env.indexes|
      invariant forall j :: 0 <= j < i ==> env.indexes[j]
    {
      if !env.indexes[i] {
        return null, made;
      }
      i := i + 1;
    }
    if !env.cachedClientOk {
      return null, made;
    }
    c.Start();
    if !env.synced {
      c.Stop();
      return null, made;
    }
    return c, made;
  }

  /** `createConnection`. */
  method CreateConnection(ghost cluster: ObjectKey, env: Environment)
    returns (built: Built<StoppableCache>, ghost made: set<StoppableCache>)
    ensures env.Gives(built)
    ensures fresh(made) && (built.Built? ==> built.cache in made)
    ensures forall c <- made ::
              && c.Valid() && c.cluster == cluster && c.informers == []
              && (c.Running() <==> built.Built? && c == built.cache)
  {
    built, made := NotBuilt, {};
    if !env.restConfigOk || !env.httpClientOk || !env.uncachedClientOk || env.onCluster.None? {
      return;
    }
    var restClient := env.restClient;
    if env.onCluster.value {
      if !env.inClusterConfigOk || !env.inClusterHttpClientOk {
        return;
      }
      restClient := env.inClusterRestClient;
    }
    var cache;
    cache, made := CreateCachedClient(cluster, env);
    if cache != null {
      built := Built(env.restConfig, restClient, env.cachedClient, cache);
    }
  }

  /** `clusterAccessorLockedConnectionState` */
  class ConnectionState {
    ghost const cluster: ObjectKey
    const restConfig: Handle
    const restClient: Handle
    const cachedClient: Handle
    const cache: StoppableCache
    var watches: set<string>

    constructor (restConfig: Handle, restClient: Handle, cachedClient: Handle, cache: StoppableCache)
      ensures this.restConfig == restConfig && this.restClient == restClient
      ensures this.cachedClient == cachedClient && this.cache == cache && watches == {}
      ensures cluster == cache.cluster
    {
      cluster := cache.cluster;
      this.restConfig, this.restClient, this.cachedClient, this.cache := restConfig, restClient, cachedClient, cache;
      watches := {};
    }
  }

  class ClusterAccessor {
    const cluster: ObjectKey
    const config: Config

    var lastConnectionCreationError: Time
    var connection: ConnectionState?
    var clientCertificatePrivateKey: Option<nat>
    var lastProbe: Time
    var lastProbeSuccess: Time
    var consecutiveFailures: nat

    /** The locked state as a value. */
    ghost function View(): Locked<StoppableCache>
      reads this, connection
    {
      Locked(
        lastConnectionCreationError,
        if connection == null then None else Some(
          Connection(connection.restConfig, connection.restClient, connection.cachedClient, connection.cache,
                     connection.watches)),
        clientCertificatePrivateKey,
        Health(lastProbe, lastProbeSuccess, consecutiveFailures))
    }

    /** The objects the accessor changes: itself, its connection and that connection's cache. */
    ghost function Footprint(): set<object>
      reads this, connection
    {
      {this} + if connection == null then {} else {connection, connection.cache}
    }

    /** A connection's cache runs, and its watch set is the set of the informers added through it. */
    ghost predicate Valid()
      reads this, connection, if connection == null then {} else {connection.cache}
    {
      connection != null ==>
        && connection.cluster == connection.cache.cluster == cluster
        && connection.cache.Valid() && connection.cache.Running()
        && clientCertificatePrivateKey.Some?
        && (forall n :: n in connection.watches <==> n in connection.cache.informers)
        && (forall i, j :: 0 <= i < j < |connection.cache.informers| ==>
              connection.cache.informers[i] != connection.cache.informers[j])
    }

    constructor (cluster: ObjectKey, config: Config)
      ensures this.cluster == cluster && this.config == config
      ensures Valid() && View() == Fresh() && connection == null
    {
      this.cluster, this.config := cluster, config;
      lastConnectionCreationError, connection, clientCertificatePrivateKey := ZERO_TIME, null, None;
      lastProbe, lastProbeSuccess, consecutiveFailures := ZERO_TIME, ZERO_TIME, 0;
    }

    function Connected(): (r: bool)
      reads this, connection
      ensures ConnectedIs(r) == Get(View(), GetConnected)
    {
      connection != null
    }

    /** `Connect`: `made` collects the caches started or allocated by this call. Those left running are the
        installed one, or, if key generation failed, the one that is now lost. */
    method Connect(env: Environment, generated: Option<nat>, now: Time)
      returns (err: Option<ConnectError>, ghost built: Built<StoppableCache>, ghost made: set<StoppableCache>)
      requires Valid()
      modifies this
      ensures Valid()
      ensures (View(), err) == LockedState.Connect(old(View()), built, generated, now)
      ensures if old(connection) == null then env.Gives(built) else built.NotBuilt? && made == {}
      ensures fresh(made) && (built.Built? ==> built.cache in made)
      ensures forall c <- made :: c.Running() <==> built.Built? && c == built.cache
      ensures connection == old(connection) || fresh(connection)
      ensures connection == null || connection == old(connection) || connection.cache in made
      ensures old(connection) != null ==> err.None? && View() == old(View())
      ensures old(connection) == null ==>
                && (err == Some(CreationFailed) <==> !env.Succeeds())
                && (err == Some(KeyGenerationFailed) <==>
                      env.Succeeds() && old(clientCertificatePrivateKey).None? && generated.None?)
                && (err.Some? ==> View() == old(View()).(lastError := now))
      ensures old(connection) == null && err.None? ==>
                && connection != null && connection.watches == {}
                && connection.restConfig == env.restConfig && connection.cachedClient == env.cachedClient
                && connection.restClient == (if env.onCluster.value then env.inClusterRestClient else env.restClient)
                && clientCertificatePrivateKey ==
                     (if old(clientCertificatePrivateKey).Some? then old(clientCertificatePrivateKey) else generated)
                && lastProbe == lastProbeSuccess == now && consecutiveFailures == 0
                && lastConnectionCreationError == old(lastConnectionCreationError)
                && GetClient() == HandleOf(env.cachedClient) && GetReader() == HandleOf(env.cachedClient)
                && GetRESTConfig() == HandleOf(env.restConfig)
                && GetClientCertificatePrivateKey() == KeyOf(clientCertificatePrivateKey)
    {
      built, made := NotBuilt, {};
      if Connected() {
        return None, built, made;
      }
      var b;
      b, made := CreateConnection(cluster, env);
      built := b;
      if b.NotBuilt? {
        lastConnectionCreationError := now;
        return Some(CreationFailed), built, made;
      }
      if clientCertificatePrivateKey.None? {
        if generated.None? {
          lastConnectionCreationError := now;
          return Some(KeyGenerationFailed), built, made;
        }
        clientCertificatePrivateKey := generated;
      }
      lastProbe, lastProbeSuccess, consecutiveFailures := now, now, 0;
      connection := new ConnectionState(b.restConfig, b.restClient, b.cachedClient, b.cache);
      return None, built, made;
    }

    /** `Disconnect`: the cache of the connection is stopped. */
    method Disconnect()
      requires Valid()
      modifies this`connection, if connection == null then {} else {connection.cache}
      ensures Valid() && connection == null
      ensures View() == LockedState.Disconnect(old(View()))
      ensures GetClient().NotConnected? && GetReader().NotConnected? && GetRESTConfig().NotConnected?
      ensures old(connection) != null ==> old(connection).cache.stopped
    {
      if !Connected() {
        return;
      }
      connection.cache.Stop();
      connection := null;
    }

    /** `HealthCheck` */
    method HealthCheck(probe: ProbeOutcome, now: Time)
      returns (tooManyConsecutiveFailures: bool, unauthorizedErrorOccurred: bool)
      requires Valid()
      modifies this`lastProbe, this`lastProbeSuccess, this`consecutiveFailures
      ensures Valid()
      ensures (View(), tooManyConsecutiveFailures, unauthorizedErrorOccurred)
           == LockedState.HealthCheck(config, old(View()), probe, now)
      ensures connection == null ==> View() == old(View()) && !tooManyConsecutiveFailures && !unauthorizedErrorOccurred
      ensures connection != null ==>
                && lastProbe == now
                && lastProbeSuccess == (if probe.ProbeOk? then now else old(lastProbeSuccess))
                && consecutiveFailures == (if probe.ProbeOk? then 0 else old(consecutiveFailures) + 1)
                && (tooManyConsecutiveFailures <==> config.failureThreshold <= consecutiveFailures)
                && (unauthorizedErrorOccurred <==> probe.ProbeUnauthorized?)
    {
      if !Connected() {
        return false, false;
      }
      lastProbe := now;
      unauthorizedErrorOccurred := false;
      match probe {
        case ProbeUnauthorized =>
          unauthorizedErrorOccurred := true;
          consecutiveFailures := consecutiveFailures + 1;
        case ProbeFailed =>
          consecutiveFailures := consecutiveFailures + 1;
        case ProbeOk =>
          consecutiveFailures := 0;
          lastProbeSuccess := lastProbe;
      }
      tooManyConsecutiveFailures := consecutiveFailures >= config.failureThreshold;
    }

    /** `Watch`: a name is added, and its watcher started on the running cache, at most once per connection. */
    method Watch(name: string, starts: bool) returns (result: WatchReturn)
      requires Valid()
      modifies if connection == null then {} else {connection, connection.cache}
      ensures Valid() && connection == old(connection)
      ensures (View(), result) == LockedState.Watch(old(View()), name, starts)
      ensures result.WatchEmptyName? <==> name == ""
      ensures result.WatchNotConnected? <==> name != "" && connection == null
      ensures result.WatchNil? <==> name != "" && connection != null && (name in old(connection.watches) || starts)
      ensures connection != null ==>
                && connection.cache.Running()
                && connection.cache.informers == old(connection.cache.informers)
                     + if old(WatchAsksWatcher(View(), name)) && starts then [name] else []
    {
      if name == "" {
        return WatchEmptyName;
      }
      if !Connected() {
        return WatchNotConnected;
      }
      if name in connection.watches {
        return WatchNil;
      }
      if !starts {
        return WatchStartFailed;
      }
      connection.cache.AddInformer(name);
      connection.watches := connection.watches + {name};
      return WatchNil;
    }

    /** In a valid state the getters serve a caller exactly when there is a running cache behind them, with a private
        key, and then `Watch` refuses no name. */
    lemma ServedIffConnected(name: string, starts: bool)
      requires Valid() && name != ""
      ensures Connected() <==> connection != null && connection.cache.Running() && clientCertificatePrivateKey.Some?
      ensures GetClient().HandleOf? <==> Connected()
      ensures GetReader().HandleOf? <==> Connected()
      ensures GetRESTConfig().HandleOf? <==> Connected()
      ensures LockedState.Watch(View(), name, starts).1.WatchNotConnected? <==> !Connected()
      ensures Connected() ==> connection.cache.cluster == cluster
    {
    }

    function GetClient(): (r: GetReturn)
      reads this, connection
      ensures r == Get(View(), Getter.GetClient)
    {
      if connection == null then NotConnected else HandleOf(connection.cachedClient)
    }

    function GetReader(): (r: GetReturn)
      reads this, connection
      ensures r == Get(View(), Getter.GetReader)
    {
      if connection == null then NotConnected else HandleOf(connection.cachedClient)
    }

    function GetClientCertificatePrivateKey(): (r: GetReturn)
      reads this, connection
      ensures r == Get(View(), GetPrivateKey)
    {
      KeyOf(clientCertificatePrivateKey)
    }

    function GetRESTConfig(): (r: GetReturn)
      reads this, connection
      ensures r == Get(View(), Getter.GetRESTConfig)
    {
      if connection == null then NotConnected else HandleOf(connection.restConfig)
    }
  }
}
