/** The state an accessor keeps behind its lock, and what each of its operations does to that state
    when nothing interferes: the atomic reference that the interleaved protocol refines and the classes implement. */
module LockedState {
  import opened Base

  /** A pointer to a REST config, REST client or cached client. */
  type Handle = nat

  datatype Health = Health(lastProbe: Time, lastSuccess: Time, failures: nat)

  /** A connection; `C` identifies its cache. */
  datatype Connection<+C> = Connection(
    restConfig: Handle, restClient: Handle, cachedClient: Handle, cache: C, watches: set<string>)

  datatype Locked<+C> = Locked(
    lastError: Time, connection: Option<Connection<C>>, privateKey: Option<nat>, health: Health)

  const HEALTH_ZERO := Health(ZERO_TIME, ZERO_TIME, 0)

  /** A freshly allocated accessor. */
  function Fresh<C>(): Locked<C> {
    Locked(ZERO_TIME, None, None, HEALTH_ZERO)
  }

  /** What `createConnection` hands back. */
  datatype Built<+C> = NotBuilt | Built(restConfig: Handle, restClient: Handle, cachedClient: Handle, cache: C)

  datatype ConnectError = CreationFailed | KeyGenerationFailed

  datatype ProbeOutcome = ProbeOk | ProbeUnauthorized | ProbeFailed

  datatype WatchReturn = WatchNil | WatchEmptyName | WatchNotConnected | WatchStartFailed

  /** The write-locked tail of `Connect`. Like the code, it does not look at the current connection. */
  function Install<C>(s: Locked<C>, built: Built<C>, generated: Option<nat>, now: Time)
    : (Locked<C>, Option<ConnectError>)
  {
    if built.NotBuilt? then
      (s.(lastError := now), Some(CreationFailed))
    else if s.privateKey.None? && generated.None? then
      (s.(lastError := now), Some(KeyGenerationFailed))
    else
      var key := if s.privateKey.None? then generated else s.privateKey;
      var c := Connection(built.restConfig, built.restClient, built.cachedClient, built.cache, {});
      (Locked(s.lastError, Some(c), key, Health(now, now, 0)), None)
  }

  /** `Connect` as one step. */
  function Connect<C>(s: Locked<C>, built: Built<C>, generated: Option<nat>, now: Time)
    : (Locked<C>, Option<ConnectError>)
  {
    if s.connection.Some? then (s, None) else Install(s, built, generated, now)
  }

  /** `Disconnect` as one step; stopping the cache is accounted for where caches live. */
  function Disconnect<C>(s: Locked<C>): Locked<C> {
    s.(connection := None)
  }

  /** The write-locked tail of `HealthCheck`: the new state, "too many consecutive failures" and "unauthorized". */
  function RecordProbe<C>(config: Config, s: Locked<C>, probe: ProbeOutcome, now: Time): (Locked<C>, bool, bool) {
    var health := match probe
      case ProbeOk => Health(now, now, 0)
      case _ => s.health.(lastProbe := now, failures := s.health.failures + 1);
    (s.(health := health), health.failures >= config.failureThreshold, probe.ProbeUnauthorized?)
  }

  /** `HealthCheck` as one step. */
  function HealthCheck<C>(config: Config, s: Locked<C>, probe: ProbeOutcome, now: Time): (Locked<C>, bool, bool) {
    if s.connection.None? then (s, false, false) else RecordProbe(config, s, probe, now)
  }

  /** `Watch` as one step; `starts` says whether the watcher accepts the cache when it is asked to. */
  function Watch<C>(s: Locked<C>, name: string, starts: bool): (Locked<C>, WatchReturn) {
    if name == "" then (s, WatchEmptyName)
    else if s.connection.None? then (s, WatchNotConnected)
    else if name in s.connection.value.watches then (s, WatchNil)
    else if !starts then (s, WatchStartFailed)
    else
      var c := s.connection.value;
      (s.(connection := Some(c.(watches := c.watches + {name}))), WatchNil)
  }

  /** True if `Watch` really asks the watcher to start on the connection's cache. */
  predicate WatchAsksWatcher<C>(s: Locked<C>, name: string) {
    name != "" && s.connection.Some? && name !in s.connection.value.watches
  }

  /** The state without the watch set: all that the reconciler of the cluster cache ever reads. */
  function WithoutWatches<C>(s: Locked<C>): Locked<C> {
    match s.connection
    case None => s
    case Some(c) => s.(connection := Some(c.(watches := {})))
  }

  datatype Getter =
    | GetClient | GetReader | GetRESTConfig | GetPrivateKey
    | GetLastProbeSuccess | GetLastProbe | GetLastError | GetConnected

  datatype GetReturn =
    | NotConnected
    | HandleOf(handle: Handle)
    | KeyOf(key: Option<nat>)
    | TimeOf(time: Time)
    | ConnectedIs(connected: bool)

  /** The read-locked getters. */
  function Get<C>(s: Locked<C>, getter: Getter): GetReturn {
    match getter
    case GetClient => if s.connection.None? then NotConnected else HandleOf(s.connection.value.cachedClient)
    case GetReader => if s.connection.None? then NotConnected else HandleOf(s.connection.value.cachedClient)
    case GetRESTConfig => if s.connection.None? then NotConnected else HandleOf(s.connection.value.restConfig)
    case GetPrivateKey => KeyOf(s.privateKey)
    case GetLastProbeSuccess => TimeOf(s.health.lastSuccess)
    case GetLastProbe => TimeOf(s.health.lastProbe)
    case GetLastError => TimeOf(s.lastError)
    case GetConnected => ConnectedIs(s.connection.Some?)
  }
}
