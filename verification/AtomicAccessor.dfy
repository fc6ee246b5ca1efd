/** The machine in which every operation of an accessor is one indivisible step, with the caches it starts
    and stops and the watchers it starts. Properties proved here hold of every interleaved run as well,
    because `AccessorProtocol` refines this machine. */
module AtomicAccessor {
  import opened Base
  import opened LockedState

  datatype CacheState = Running | Stopped

  /** How `createConnection` ends: an error before the cache was started, a cache that was started, did not
      sync and was stopped again, or a connection with a running cache. */
  datatype Creation =
    | FailedBeforeStart
    | FailedToSync
    | Created(restConfig: Handle, restClient: Handle, cachedClient: Handle)

  /** `caches` holds every cache ever started, oldest first; `starts` every successful start of a watcher on a cache. */
  datatype Atomic = Atomic(locked: Locked<nat>, caches: seq<CacheState>, starts: seq<(nat, string)>)

  /** A completed operation: who called it, what the outside world answered, and what it returned. */
  datatype Op =
    | OpConnect(creation: Creation, cache: nat, generated: Option<nat>, at: Time, err: Option<ConnectError>)
    | OpDisconnect
    | OpHealthCheck(probe: ProbeOutcome, at: Time, tooMany: bool, unauthorized: bool)
    | OpWatch(thread: nat, name: string, starts: bool, result: WatchReturn)
    | OpGet(thread: nat, getter: Getter, value: GetReturn)

  const INITIAL := Atomic(Fresh(), [], [])

  function StartedCaches(creation: Creation): seq<CacheState> {
    match creation
    case FailedBeforeStart => []
    case FailedToSync => [Stopped]
    case Created(_, _, _) => [Running]
  }

  function BuiltBy(creation: Creation, cache: nat): Built<nat> {
    match creation
    case Created(rc, cl, cc) => Built(rc, cl, cc, cache)
    case _ => NotBuilt
  }

  /** The effect of an operation. */
  function Apply(config: Config, a: Atomic, op: Op): Atomic {
    match op
    case OpConnect(creation, cache, generated, at, _) =>
      if a.locked.connection.Some? then a else
        Atomic(Connect(a.locked, BuiltBy(creation, cache), generated, at).0,
               a.caches + StartedCaches(creation), a.starts)
    case OpDisconnect =>
      var caches := match a.locked.connection
        case None => a.caches
        case Some(c) => if c.cache < |a.caches| then a.caches[c.cache := Stopped] else a.caches;
      Atomic(Disconnect(a.locked), caches, a.starts)
    case OpHealthCheck(probe, at, _, _) =>
      a.(locked := HealthCheck(config, a.locked, probe, at).0)
    case OpWatch(_, name, starts, _) =>
      var started := if WatchAsksWatcher(a.locked, name) && starts
                     then [(a.locked.connection.value.cache, name)] else [];
      a.(locked := Watch(a.locked, name, starts).0, starts := a.starts + started)
    case OpGet(_, _, _) => a
  }

  /** The values the operation must have returned, were it executed in state `a`. A connect that finds a
      connection builds nothing; else `cache` is the index of the next cache, which it may start. */
  predicate Returns(config: Config, a: Atomic, op: Op) {
    match op
    case OpConnect(creation, cache, generated, at, err) =>
      if a.locked.connection.Some? then creation.FailedBeforeStart? && err.None? else
        && cache == |a.caches|
        && err == Connect(a.locked, BuiltBy(creation, cache), generated, at).1
    case OpDisconnect => true
    case OpHealthCheck(probe, at, tooMany, unauthorized) =>
      var (_, t, u) := HealthCheck(config, a.locked, probe, at);
      tooMany == t && unauthorized == u
    case OpWatch(_, name, starts, result) => result == Watch(a.locked, name, starts).1
    case OpGet(_, getter, value) => value == Get(a.locked, getter)
  }

  function Replay(config: Config, a: Atomic, log: seq<Op>): Atomic {
    if log == [] then a
    else Apply(config, Replay(config, a, log[..|log|-1]), log[|log|-1])
  }

  /** `log` is a run of the atomic machine from `a`: each operation returned what it returns at its place. */
  predicate Legal(config: Config, a: Atomic, log: seq<Op>) {
    log == [] || (Legal(config, a, log[..|log|-1])
                  && Returns(config, Replay(config, a, log[..|log|-1]), log[|log|-1]))
  }

  // ----- What every state of a run satisfies -----

  predicate Distinct<T(==)>(s: seq<T>) {
    forall i, j :: 0 <= i < j < |s| ==> s[i] != s[j]
  }

  /** A connection has a running cache and a private key, its watch set is exactly the set of names whose
      watcher was started on that cache, and no watcher was ever started twice on one cache. */
  ghost predicate Consistent(a: Atomic) {
    && Distinct(a.starts)
    && (forall s <- a.starts :: s.0 < |a.caches|)
    && (a.locked.connection.Some? ==>
          var c := a.locked.connection.value;
          && c.cache < |a.caches| && a.caches[c.cache] == Running
          && a.locked.privateKey.Some?
          && (forall n :: n in c.watches <==> (c.cache, n) in a.starts))
  }

  lemma ApplyConsistent(config: Config, a: Atomic, op: Op)
    requires Consistent(a) && Returns(config, a, op)
    ensures Consistent(Apply(config, a, op))
  {
  }

  lemma {:induction false} ReplayConsistent(config: Config, log: seq<Op>)
    requires Legal(config, INITIAL, log)
    ensures Consistent(Replay(config, INITIAL, log))
  {
    if log == [] {
    } else {
      ReplayConsistent(config, log[..|log|-1]);
      ApplyConsistent(config, Replay(config, INITIAL, log[..|log|-1]), log[|log|-1]);
    }
  }

  // ----- The private key -----

  /** Once generated, the key survives every sequence of failures, disconnects and reconnects. */
  lemma {:induction false} PrivateKeyIsStable(config: Config, a: Atomic, log: seq<Op>)
    requires a.locked.privateKey.Some?
    ensures Replay(config, a, log).locked.privateKey == a.locked.privateKey
  {
    if log == [] {
    } else {
      PrivateKeyIsStable(config, a, log[..|log|-1]);
    }
  }

  // ----- The failure counter -----

  predicate Installs(op: Op) {
    op.OpConnect? && op.creation.Created? && op.err.None?
  }

  /** The connect at `i` succeeded and no disconnect followed it. */
  predicate ConnectedSince(log: seq<Op>, i: nat) {
    && i < |log| && Installs(log[i])
    && (forall j :: i < j < |log| ==> !log[j].OpDisconnect?)
  }

  /** Whether there is a connection, as the log alone tells. */
  ghost predicate ConnectedAfter(log: seq<Op>) {
    exists i: nat :: ConnectedSince(log, i)
  }

  lemma ConnectedAfterOneMore(log: seq<Op>)
    requires log != []
    ensures var before, op := log[..|log|-1], log[|log|-1];
            ConnectedAfter(log) <==> Installs(op) || (ConnectedAfter(before) && !op.OpDisconnect?)
  {
    var n := |log| - 1;
    if Installs(log[n]) {
      assert ConnectedSince(log, n);
    } else if ConnectedAfter(log) {
      var i: nat :| ConnectedSince(log, i);
      assert ConnectedSince(log[..n], i);
    } else if ConnectedAfter(log[..n]) {
      var i: nat :| ConnectedSince(log[..n], i);
      assert !log[n].OpDisconnect? ==> ConnectedSince(log, i);
    }
  }

  lemma {:induction false} ConnectionIsInTheLog(config: Config, log: seq<Op>)
    requires Legal(config, INITIAL, log)
    ensures Replay(config, INITIAL, log).locked.connection.Some? <==> ConnectedAfter(log)
  {
    if log == [] {
    } else {
      ConnectionIsInTheLog(config, log[..|log|-1]);
      ConnectedAfterOneMore(log);
    }
  }

  /** The operation at `i` was a probe (not a health check that found no connection) with this outcome. */
  ghost predicate ProbedAt(log: seq<Op>, i: nat, ok: bool) {
    i < |log| && log[i].OpHealthCheck? && log[i].probe.ProbeOk? == ok && ConnectedAfter(log[..i])
  }

  ghost predicate SucceededAt(log: seq<Op>, i: nat) {
    i < |log| && (Installs(log[i]) || ProbedAt(log, i, true))
  }

  /** The index after the last successful connect or probe, 0 if there was none. */
  ghost function AfterLastSuccess(log: seq<Op>): (k: nat)
    ensures k <= |log|
    ensures k > 0 ==> SucceededAt(log, k - 1)
    ensures forall i :: k <= i < |log| ==> !SucceededAt(log, i)
  {
    if log == [] then 0
    else if SucceededAt(log, |log| - 1) then |log|
    else
      var before := log[..|log|-1];
      assert forall i :: 0 <= i < |before| ==> before[..i] == log[..i] && before[i] == log[i];
      assert forall i: nat :: i < |before| ==> SucceededAt(before, i) == SucceededAt(log, i);
      AfterLastSuccess(before)
  }

  /** The failed probes among the operations from `k` on. */
  ghost function FailedProbesFrom(log: seq<Op>, k: nat): set<nat> {
    set i | k <= i < |log| && ProbedAt(log, i, false)
  }

  lemma ProbedBefore(log: seq<Op>, i: nat)
    requires i < |log| - 1
    ensures ProbedAt(log[..|log|-1], i, false) == ProbedAt(log, i, false)
  {
    assert log[..|log|-1][..i] == log[..i];
  }

  lemma FailedProbesOneMore(log: seq<Op>, k: nat)
    requires k < |log|
    ensures var n := |log| - 1;
            |FailedProbesFrom(log, k)| == |FailedProbesFrom(log[..n], k)| + (if ProbedAt(log, n, false) then 1 else 0)
  {
    var n := |log| - 1;
    var earlier, all := FailedProbesFrom(log[..n], k), FailedProbesFrom(log, k);
    forall i: nat | i < n ensures i in earlier <==> i in all {
      ProbedBefore(log, i);
    }
    assert all - {n} == earlier;
  }

  /** The failure counter is the number of failed probes after the last successful probe or connect. */
  lemma {:induction false} CounterCountsFailures(config: Config, log: seq<Op>)
    requires Legal(config, INITIAL, log)
    ensures Replay(config, INITIAL, log).locked.health.failures == |FailedProbesFrom(log, AfterLastSuccess(log))|
  {
    if log == [] {
    } else {
      var n := |log| - 1;
      CounterCountsFailures(config, log[..n]);
      ConnectionIsInTheLog(config, log[..n]);
      if SucceededAt(log, n) {
        assert FailedProbesFrom(log, |log|) == {};
      } else {
        FailedProbesOneMore(log, AfterLastSuccess(log[..n]));
      }
    }
  }

  // ----- The watch set -----

  /** The names for which `Watch` returned nil since the last successful connect, none after a disconnect. */
  function WatchedSinceConnect(log: seq<Op>): set<string> {
    if log == [] then {} else
      var before := log[..|log|-1];
      match log[|log|-1]
      case OpConnect(creation, _, _, _, err) =>
        if creation.Created? && err.None? then {} else WatchedSinceConnect(before)
      case OpDisconnect => {}
      case OpWatch(_, name, _, result) =>
        if result.WatchNil? then WatchedSinceConnect(before) + {name} else WatchedSinceConnect(before)
      case _ => WatchedSinceConnect(before)
  }

  lemma {:induction false} WatchSetIsWhatWatchPromised(config: Config, log: seq<Op>)
    requires Legal(config, INITIAL, log)
    ensures var s := Replay(config, INITIAL, log).locked;
            WatchedSinceConnect(log) == if s.connection.Some? then s.connection.value.watches else {}
  {
    if log == [] {
    } else {
      WatchSetIsWhatWatchPromised(config, log[..|log|-1]);
    }
  }

  // ----- Conservation of caches -----

  function RunningCount(caches: seq<CacheState>): nat {
    if caches == [] then 0
    else RunningCount(caches[..|caches|-1]) + (if caches[|caches|-1] == Running then 1 else 0)
  }

  lemma RunningCountAppend(caches: seq<CacheState>, c: CacheState)
    ensures RunningCount(caches + [c]) == RunningCount(caches) + (if c == Running then 1 else 0)
  {
    assert (caches + [c])[..|caches + [c]|-1] == caches;
  }

  lemma {:induction false} RunningCountStop(caches: seq<CacheState>, i: nat)
    requires i < |caches| && caches[i] == Running
    ensures RunningCount(caches[i := Stopped]) == RunningCount(caches) - 1
  {
    var after := caches[i := Stopped];
    var n := |caches| - 1;
    if i == n {
      assert after[..n] == caches[..n];
    } else {
      assert after[..n] == caches[..n][i := Stopped];
      RunningCountStop(caches[..n], i);
    }
  }

  predicate Leaks(op: Op) {
    op.OpConnect? && op.creation.Created? && op.err == Some(KeyGenerationFailed)
  }

  /** How many connects failed at key generation, after their connection had been built. */
  function LeakCount(log: seq<Op>): nat {
    if log == [] then 0
    else
      var before, op := LeakCount(log[..|log|-1]), log[|log|-1];
      if Leaks(op) then before + 1 else before
  }

  function Leaked(log: seq<Op>): set<nat> {
    if log == [] then {}
    else
      var before, op := Leaked(log[..|log|-1]), log[|log|-1];
      if Leaks(op) then before + {op.cache} else before
  }

  function Installed(log: seq<Op>): set<nat> {
    if log == [] then {}
    else
      var before, op := Installed(log[..|log|-1]), log[|log|-1];
      if Installs(op) then before + {op.cache} else before
  }

  function CurrentCache(s: Locked<nat>): Option<nat> {
    if s.connection.None? then None else Some(s.connection.value.cache)
  }

  /** The caches still running are the installed one and those of connects that failed at key generation. */
  ghost predicate Ledger(a: Atomic, log: seq<Op>) {
    Balanced(a.caches, CurrentCache(a.locked), LeakCount(log), Leaked(log), Installed(log))
  }

  ghost predicate Balanced(
    caches: seq<CacheState>, current: Option<nat>, leaks: nat, leaked: set<nat>, installed: set<nat>)
  {
    && RunningCount(caches) == (if current.Some? then 1 else 0) + leaks
    && leaked !! installed
    && (forall c <- leaked :: c < |caches|)
    && (forall c <- installed :: c < |caches|)
    && (current.Some? ==> current.value in installed)
    && RunningAre(caches, current, leaked)
  }

  ghost predicate RunningAre(caches: seq<CacheState>, current: Option<nat>, leaked: set<nat>) {
    forall c: nat :: c < |caches| ==> (caches[c] == Running <==> c in leaked || current == Some(c))
  }

  lemma NothingRunsInstead(caches: seq<CacheState>, leaks: nat, leaked: set<nat>, installed: set<nat>)
    requires Balanced(caches, None, leaks, leaked, installed)
    ensures Balanced(caches + [Stopped], None, leaks, leaked, installed)
  {
    RunningCountAppend(caches, Stopped);
  }

  lemma OneMoreLeaks(caches: seq<CacheState>, leaks: nat, leaked: set<nat>, installed: set<nat>)
    requires Balanced(caches, None, leaks, leaked, installed)
    ensures Balanced(caches + [Running], None, leaks + 1, leaked + {|caches|}, installed)
  {
    RunningCountAppend(caches, Running);
  }

  lemma OneIsInstalled(caches: seq<CacheState>, leaks: nat, leaked: set<nat>, installed: set<nat>)
    requires Balanced(caches, None, leaks, leaked, installed)
    ensures Balanced(caches + [Running], Some(|caches|), leaks, leaked, installed + {|caches|})
  {
    RunningCountAppend(caches, Running);
  }

  lemma TheInstalledStops(caches: seq<CacheState>, current: nat, leaks: nat, leaked: set<nat>, installed: set<nat>)
    requires Balanced(caches, Some(current), leaks, leaked, installed)
    ensures Balanced(caches[current := Stopped], None, leaks, leaked, installed)
  {
    RunningCountStop(caches, current);
  }

  /** The ledger after one more operation. */
  ghost predicate BalancedAfter(a: Atomic, op: Op, leaks: nat, leaked: set<nat>, installed: set<nat>) {
    var current := CurrentCache(a.locked);
    if Leaks(op) then Balanced(a.caches, current, leaks + 1, leaked + {op.cache}, installed)
    else if Installs(op) then Balanced(a.caches, current, leaks, leaked, installed + {op.cache})
    else Balanced(a.caches, current, leaks, leaked, installed)
  }

  lemma ConnectEffect(config: Config, a: Atomic, op: Op)
    requires Returns(config, a, op) && op.OpConnect? && a.locked.connection.None?
    ensures var a' := Apply(config, a, op);
            && a'.caches == (if op.creation.FailedBeforeStart? then a.caches
                             else a.caches + [if op.creation.FailedToSync? then Stopped else Running])
            && CurrentCache(a'.locked) == (if Installs(op) then Some(|a.caches|) else None)
            && op.cache == |a.caches|
            && (op.creation.Created? ==> Leaks(op) || Installs(op))
  {
  }

  lemma ConnectKeepsBalance(config: Config, a: Atomic, op: Op, leaks: nat, leaked: set<nat>, installed: set<nat>)
    requires Returns(config, a, op) && op.OpConnect? && a.locked.connection.None?
    requires Balanced(a.caches, None, leaks, leaked, installed)
    ensures BalancedAfter(Apply(config, a, op), op, leaks, leaked, installed)
  {
    ConnectEffect(config, a, op);
    if op.creation.FailedToSync? {
      NothingRunsInstead(a.caches, leaks, leaked, installed);
    } else if Leaks(op) {
      OneMoreLeaks(a.caches, leaks, leaked, installed);
    } else if Installs(op) {
      OneIsInstalled(a.caches, leaks, leaked, installed);
    }
  }

  lemma DisconnectKeepsBalance(config: Config, a: Atomic, leaks: nat, leaked: set<nat>, installed: set<nat>)
    requires a.locked.connection.Some? && Balanced(a.caches, CurrentCache(a.locked), leaks, leaked, installed)
    ensures Balanced(Apply(config, a, OpDisconnect).caches, None, leaks, leaked, installed)
  {
    TheInstalledStops(a.caches, a.locked.connection.value.cache, leaks, leaked, installed);
  }

  lemma OpKeepsBalance(config: Config, a: Atomic, op: Op, leaks: nat, leaked: set<nat>, installed: set<nat>)
    requires Returns(config, a, op) && Balanced(a.caches, CurrentCache(a.locked), leaks, leaked, installed)
    ensures BalancedAfter(Apply(config, a, op), op, leaks, leaked, installed)
  {
    if op.OpConnect? && a.locked.connection.None? {
      ConnectKeepsBalance(config, a, op, leaks, leaked, installed);
    } else if op.OpDisconnect? && a.locked.connection.Some? {
      DisconnectKeepsBalance(config, a, leaks, leaked, installed);
    } else {
      assert Apply(config, a, op).caches == a.caches;
      assert CurrentCache(Apply(config, a, op).locked) == CurrentCache(a.locked);
    }
  }

  lemma LedgerOneMore(a: Atomic, log: seq<Op>)
    requires log != []
    requires var before := log[..|log|-1];
             BalancedAfter(a, log[|log|-1], LeakCount(before), Leaked(before), Installed(before))
    ensures Ledger(a, log)
  {
    assert !(Leaks(log[|log|-1]) && Installs(log[|log|-1]));
  }

  /** Conservation over whole runs: nothing runs but the installed cache and the leaked ones, counted exactly. */
  lemma {:induction false} CachesAreConserved(config: Config, log: seq<Op>)
    requires Legal(config, INITIAL, log)
    ensures Ledger(Replay(config, INITIAL, log), log)
  {
    if log == [] {
    } else {
      var before, op := log[..|log|-1], log[|log|-1];
      CachesAreConserved(config, before);
      OpKeepsBalance(config, Replay(config, INITIAL, before), op, LeakCount(before), Leaked(before), Installed(before));
      LedgerOneMore(Replay(config, INITIAL, log), log);
    }
  }

  /** So an installed cache is stopped exactly when it is no longer installed. */
  lemma InstalledCachesStop(config: Config, log: seq<Op>, c: nat)
    requires Legal(config, INITIAL, log) && c in Installed(log)
    ensures var a := Replay(config, INITIAL, log);
            c < |a.caches| && (a.caches[c] == Stopped <==> CurrentCache(a.locked) != Some(c))
  {
    CachesAreConserved(config, log);
  }

  // ----- What the reconciler sees -----

  predicate IsReader(op: Op) {
    op.OpWatch? || op.OpGet?
  }

  function ReconcilerOps(log: seq<Op>): seq<Op> {
    if log == [] then []
    else ReconcilerOps(log[..|log|-1]) + (if IsReader(log[|log|-1]) then [] else [log[|log|-1]])
  }

  /** Forgetting watches: two states the reconciler cannot tell apart. */
  predicate SameForReconciler(a: Atomic, b: Atomic) {
    WithoutWatches(a.locked) == WithoutWatches(b.locked) && a.caches == b.caches
  }

  lemma ReconcilerOpRespectsView(config: Config, a: Atomic, b: Atomic, op: Op)
    requires SameForReconciler(a, b) && !IsReader(op)
    ensures Returns(config, a, op) <==> Returns(config, b, op)
    ensures SameForReconciler(Apply(config, a, op), Apply(config, b, op))
  {
  }

  lemma ReaderOpIsInvisible(config: Config, a: Atomic, op: Op)
    requires IsReader(op)
    ensures SameForReconciler(Apply(config, a, op), a)
  {
  }

  /** The reconciler's operations return the same values, and leave the same state but for watches, whether or
      not readers run in between: a reconcile may be analysed as if it ran alone. */
  lemma {:induction false} ReadersAreInvisibleToReconciler(config: Config, a: Atomic, log: seq<Op>)
    requires Legal(config, a, log)
    ensures Legal(config, a, ReconcilerOps(log))
    ensures SameForReconciler(Replay(config, a, log), Replay(config, a, ReconcilerOps(log)))
  {
    if log == [] {
    } else {
      var before, op := log[..|log|-1], log[|log|-1];
      ReadersAreInvisibleToReconciler(config, a, before);
      var together, alone := Replay(config, a, before), Replay(config, a, ReconcilerOps(before));
      if IsReader(op) {
        assert ReconcilerOps(log) == ReconcilerOps(before);
        ReaderOpIsInvisible(config, together, op);
      } else {
        var ops := ReconcilerOps(log);
        assert ops[..|ops|-1] == ReconcilerOps(before) && ops[|ops|-1] == op;
        ReconcilerOpRespectsView(config, together, alone, op);
      }
    }
  }
}
