/** Types shared by the model of the cluster cache: optional values, instants and the accessor configuration. */
module Base {

  datatype Option<+T> = None | Some(value: T)

  /** Instants and durations, in nanoseconds. Instant 0 is Go's zero `time.Time`; clock readings are later. */
  type Time = int

  const ZERO_TIME: Time := 0
  const MILLISECOND: int := 1_000_000
  const SECOND: int := 1000 * MILLISECOND

  /** The namespace and name of a Cluster. */
  datatype ObjectKey = ObjectKey(namespace: string, name: string)

  /** The part of `clusterAccessorConfig` that steers connecting and health checking. */
  datatype Config = Config(retryInterval: int, probeTimeout: int, probeInterval: int, failureThreshold: int)

  const DEFAULT_CONFIG := Config(30 * SECOND, 5 * SECOND, 10 * SECOND, 5)

  function Max(a: int, b: int): int {
    if a < b then b else a
  }
}
