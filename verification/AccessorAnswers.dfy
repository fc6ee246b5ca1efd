/** What the accessor answers its callers, told from history alone: every value that an operation returned, in every
    interleaving, is determined by the operations that completed before it. */
module AccessorAnswers {
  import opened Base
  import opened LockedState
  import opened AtomicAccessor
  import opened AccessorProtocol

  // ----- Reading the log -----

  /** The first successful connect, or the length of the log if there is none. */
  ghost function FirstInstall(log: seq<Op>): (k: nat)
    ensures k <= |log|
    ensures k < |log| ==> Installs(log[k])
    ensures forall i :: 0 <= i < k ==> !Installs(log[i])
  {
    if log == [] then 0
    else
      var n := |log| - 1;
      var k := FirstInstall(log[..n]);
      if k < n || Installs(log[n]) then k else |log|
  }

  /** The private key the log gives: the one generated for the first successful connect. */
  ghost function KeyIn(log: seq<Op>): Option<nat> {
    var k := FirstInstall(log);
    if k < |log| then log[k].generated else None
  }

  /** What is stamped with a time. */
  datatype Mark = ConnectFailure | Contact | Success

  /** The operation at `i` stamps: a connect that failed; a connect that succeeded or a probe; one of these that
      succeeded. */
  ghost predicate Marked(log: seq<Op>, i: nat, mark: Mark) {
    i < |log| &&
    match mark
    case ConnectFailure => log[i].OpConnect? && log[i].err.Some?
    case Contact => Installs(log[i]) || ProbedAt(log, i, true) || ProbedAt(log, i, false)
    case Success => SucceededAt(log, i)
  }

  lemma MarkedBefore(log: seq<Op>, i: nat, mark: Mark)
    requires i < |log| - 1
    ensures Marked(log[..|log|-1], i, mark) == Marked(log, i, mark)
  {
    assert log[..|log|-1][..i] == log[..i];
  }

  lemma MarkedBeforeAll(log: seq<Op>, mark: Mark)
    requires log != []
    ensures forall i: nat :: i < |log| - 1 ==> Marked(log[..|log|-1], i, mark) == Marked(log, i, mark)
  {
    forall i: nat | i < |log| - 1 ensures Marked(log[..|log|-1], i, mark) == Marked(log, i, mark) {
      MarkedBefore(log, i, mark);
    }
  }

  /** The index after the last operation that stamps, 0 if there is none. */
  ghost function AfterLast(log: seq<Op>, mark: Mark): (k: nat)
    ensures k <= |log|
    ensures k > 0 ==> Marked(log, k - 1, mark)
    ensures forall i: nat :: k <= i < |log| ==> !Marked(log, i, mark)
  {
    if log == [] then 0
    else if Marked(log, |log| - 1, mark) then |log|
    else
      var before := log[..|log|-1];
      var k := AfterLast(before, mark);
      MarkedBeforeAll(log, mark);
      k
  }

  ghost function StampIn(log: seq<Op>, mark: Mark): Time {
    var k := AfterLast(log, mark);
    if k == 0 then ZERO_TIME else log[k-1].at
  }

  function StampOf(s: Locked<nat>, mark: Mark): Time {
    match mark
    case ConnectFailure => s.lastError
    case Contact => s.health.lastProbe
    case Success => s.health.lastSuccess
  }

  // ----- The state is what the log says -----

  lemma {:induction false} LegalPrefix(config: Config, log: seq<Op>, i: nat)
    requires Legal(config, INITIAL, log) && i < |log|
    ensures Legal(config, INITIAL, log[..i]) && Returns(config, Replay(config, INITIAL, log[..i]), log[i])
    ensures Legal(config, INITIAL, log[..i+1])
    ensures Replay(config, INITIAL, log[..i+1]) == Apply(config, Replay(config, INITIAL, log[..i]), log[i])
  {
    var n := |log| - 1;
    assert log[..i+1][..i] == log[..i];
    if i == n {
      assert log[..i+1] == log;
    } else {
      LegalPrefix(config, log[..n], i);
      assert log[..n][..i] == log[..i] && log[..n][..i+1] == log[..i+1];
    }
  }

  /** The connection is the one that the last successful connect built. */
  lemma {:induction false} ConnectionIsOfLastConnect(config: Config, log: seq<Op>, k: nat)
    requires Legal(config, INITIAL, log) && ConnectedSince(log, k)
    ensures var s := Replay(config, INITIAL, log).locked;
            && s.connection.Some?
            && s.connection.value.restConfig == log[k].creation.restConfig
            && s.connection.value.restClient == log[k].creation.restClient
            && s.connection.value.cachedClient == log[k].creation.cachedClient
            && s.connection.value.cache == log[k].cache
  {
    var n := |log| - 1;
    if k == n {
    } else {
      assert ConnectedSince(log[..n], k);
      ConnectionIsOfLastConnect(config, log[..n], k);
    }
  }

  lemma {:induction false} KeyIsFirstGenerated(config: Config, log: seq<Op>)
    requires Legal(config, INITIAL, log)
    ensures Replay(config, INITIAL, log).locked.privateKey == KeyIn(log)
    ensures FirstInstall(log) < |log| <==> KeyIn(log).Some?
  {
    if log == [] {
    } else {
      KeyIsFirstGenerated(config, log[..|log|-1]);
    }
  }

  lemma StampOneMore(config: Config, log: seq<Op>, mark: Mark)
    requires log != [] && Legal(config, INITIAL, log)
    ensures var n := |log| - 1;
            StampOf(Replay(config, INITIAL, log).locked, mark) ==
              if Marked(log, n, mark) then log[n].at
              else StampOf(Replay(config, INITIAL, log[..n]).locked, mark)
  {
    ConnectionIsInTheLog(config, log[..|log|-1]);
  }

  lemma {:induction false} StampsAreInTheLog(config: Config, log: seq<Op>, mark: Mark)
    requires Legal(config, INITIAL, log)
    ensures StampOf(Replay(config, INITIAL, log).locked, mark) == StampIn(log, mark)
  {
    if log == [] {
    } else {
      StampOneMore(config, log, mark);
      StampsAreInTheLog(config, log[..|log|-1], mark);
    }
  }

  // ----- Every answer is what the log before it says -----

  /** Without a connection the client getters refuse; with one they give the clients of the connect that made it. The
      private key is the one generated first, and the times are those of the last operation that stamps them. */
  ghost predicate GetAnswered(before: seq<Op>, getter: Getter, value: GetReturn) {
    match getter
    case GetClient =>
      && (value.NotConnected? <==> !ConnectedAfter(before))
      && (forall k: nat :: ConnectedSince(before, k) ==> value == HandleOf(before[k].creation.cachedClient))
    case GetReader =>
      && (value.NotConnected? <==> !ConnectedAfter(before))
      && (forall k: nat :: ConnectedSince(before, k) ==> value == HandleOf(before[k].creation.cachedClient))
    case GetRESTConfig =>
      && (value.NotConnected? <==> !ConnectedAfter(before))
      && (forall k: nat :: ConnectedSince(before, k) ==> value == HandleOf(before[k].creation.restConfig))
    case GetPrivateKey => value == KeyOf(KeyIn(before))
    case GetLastProbeSuccess => value == TimeOf(StampIn(before, Success))
    case GetLastProbe => value == TimeOf(StampIn(before, Contact))
    case GetLastError => value == TimeOf(StampIn(before, ConnectFailure))
    case GetConnected => value == ConnectedIs(ConnectedAfter(before))
  }

  /** A connect returns nil if there is a connection, or if it built one and there is a key or one was generated. */
  ghost predicate ConnectAnswered(
    before: seq<Op>, creation: Creation, generated: Option<nat>, err: Option<ConnectError>)
  {
    err == if ConnectedAfter(before) then None
           else if !creation.Created? then Some(CreationFailed)
           else if KeyIn(before).None? && generated.None? then Some(KeyGenerationFailed)
           else None
  }

  /** A watch returns nil exactly if there is a connection on which the name was started before or starts now. */
  ghost predicate WatchAnswered(before: seq<Op>, name: string, starts: bool, result: WatchReturn) {
    result == if name == "" then WatchEmptyName
              else if !ConnectedAfter(before) then WatchNotConnected
              else if name in WatchedSinceConnect(before) || starts then WatchNil
              else WatchStartFailed
  }

  /** A health check without a connection reports nothing; with one it reports an unauthorized probe, and whether the
      failed probes since the last success have reached the threshold. */
  ghost predicate HealthAnswered(config: Config, log: seq<Op>, i: nat, tooMany: bool, unauthorized: bool)
    requires i < |log| && log[i].OpHealthCheck?
  {
    var upTo := log[..i+1];
    && (unauthorized <==> ConnectedAfter(log[..i]) && log[i].probe.ProbeUnauthorized?)
    && (tooMany <==> ConnectedAfter(log[..i])
                     && config.failureThreshold <= |FailedProbesFrom(upTo, AfterLastSuccess(upTo))|)
  }

  ghost predicate Answered(config: Config, log: seq<Op>, i: nat)
    requires i < |log|
  {
    match log[i]
    case OpConnect(creation, _, generated, _, err) => ConnectAnswered(log[..i], creation, generated, err)
    case OpDisconnect => true
    case OpHealthCheck(_, _, tooMany, unauthorized) => HealthAnswered(config, log, i, tooMany, unauthorized)
    case OpWatch(_, name, starts, result) => WatchAnswered(log[..i], name, starts, result)
    case OpGet(_, getter, value) => GetAnswered(log[..i], getter, value)
  }

  lemma GettersAnswer(config: Config, before: seq<Op>, op: Op)
    requires Legal(config, INITIAL, before) && Returns(config, Replay(config, INITIAL, before), op) && op.OpGet?
    ensures GetAnswered(before, op.getter, op.value)
  {
    ConnectionIsInTheLog(config, before);
    KeyIsFirstGenerated(config, before);
    StampsAreInTheLog(config, before, Success);
    StampsAreInTheLog(config, before, Contact);
    StampsAreInTheLog(config, before, ConnectFailure);
    forall k: nat | ConnectedSince(before, k)
      ensures var c := Replay(config, INITIAL, before).locked.connection;
              && c.Some?
              && c.value.cachedClient == before[k].creation.cachedClient
              && c.value.restConfig == before[k].creation.restConfig
    {
      ConnectionIsOfLastConnect(config, before, k);
    }
  }

  lemma ConnectAnswers(config: Config, before: seq<Op>, op: Op)
    requires Legal(config, INITIAL, before) && Returns(config, Replay(config, INITIAL, before), op) && op.OpConnect?
    ensures ConnectAnswered(before, op.creation, op.generated, op.err)
  {
    ConnectionIsInTheLog(config, before);
    KeyIsFirstGenerated(config, before);
  }

  lemma WatchAnswers(config: Config, before: seq<Op>, op: Op)
    requires Legal(config, INITIAL, before) && Returns(config, Replay(config, INITIAL, before), op) && op.OpWatch?
    ensures WatchAnswered(before, op.name, op.starts, op.result)
  {
    ConnectionIsInTheLog(config, before);
    WatchSetIsWhatWatchPromised(config, before);
  }

  lemma HealthAnswers(config: Config, log: seq<Op>, i: nat)
    requires Legal(config, INITIAL, log) && i < |log| && log[i].OpHealthCheck?
    ensures HealthAnswered(config, log, i, log[i].tooMany, log[i].unauthorized)
  {
    LegalPrefix(config, log, i);
    ConnectionIsInTheLog(config, log[..i]);
    CounterCountsFailures(config, log[..i+1]);
  }

  /** Every value returned in a run of the atomic machine is what the log before it says. */
  lemma AnswersAreInTheLog(config: Config, log: seq<Op>, i: nat)
    requires Legal(config, INITIAL, log) && i < |log|
    ensures Answered(config, log, i)
  {
    LegalPrefix(config, log, i);
    match log[i]
    case OpConnect(_, _, _, _, _) => ConnectAnswers(config, log[..i], log[i]);
    case OpDisconnect =>
    case OpHealthCheck(_, _, _, _) => HealthAnswers(config, log, i);
    case OpWatch(_, _, _, _) => WatchAnswers(config, log[..i], log[i]);
    case OpGet(_, _, _) => GettersAnswer(config, log[..i], log[i]);
  }

  /** And so is every value returned in every interleaving of one reconciler thread and any number of readers. */
  lemma AnswersInEveryInterleaving(config: Config, steps: seq<Step>)
    requires CanRun(config, START, steps)
    ensures var log := Run(config, START, steps).log;
            forall i: nat :: i < |log| ==> Answered(config, log, i)
  {
    InterleavingsRefineAtomicRuns(config, steps);
    var log := Run(config, START, steps).log;
    forall i: nat | i < |log| ensures Answered(config, log, i) {
      AnswersAreInTheLog(config, log, i);
    }
  }

  /** In every interleaving a connection holds the clients and the cache of the connect that made it. */
  lemma ConnectionInEveryInterleaving(config: Config, steps: seq<Step>, k: nat)
    requires CanRun(config, START, steps) && ConnectedSince(Run(config, START, steps).log, k)
    ensures var w := Run(config, START, steps);
            && w.locked.connection.Some?
            && w.locked.connection.value.restConfig == w.log[k].creation.restConfig
            && w.locked.connection.value.restClient == w.log[k].creation.restClient
            && w.locked.connection.value.cachedClient == w.log[k].creation.cachedClient
            && w.locked.connection.value.cache == w.log[k].cache
  {
    InterleavingsRefineAtomicRuns(config, steps);
    ConnectionIsOfLastConnect(config, Run(config, START, steps).log, k);
  }
}
