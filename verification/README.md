# The cluster cache of Cluster API, and three smaller protocols

Dafny models, with proofs, of four parts of Cluster API: the connection manager for workload clusters
(`controllers/clustercache`), the tracker of external objects, the deep copy of JSON schemas, and the edits of owner
references. `dafny verify dfyconfig.toml` checks everything.

## What is modelled

**The accessor of one workload cluster.** `LockedState` gives the state behind the accessor's lock and each operation
as one step. `AtomicAccessor` is the machine in which operations are indivisible; it keeps the caches that were
started and the operations that completed. `AccessorProtocol` is what really runs: one reconciler thread and any
number of readers, broken at lock boundaries, with connection building and probing done without the lock. Every
interleaving refines a run of the atomic machine with the same return values, and none faults. The refinement carries
conservation of caches, exactly-once watches, the meaning of the failure counter and the stability of the private key
over to every interleaving. Two further lemmas show that the rule of one reconciler per cluster cannot be dropped.
`AccessorAnswers` says what callers are told: every value an operation returns, in every interleaving, follows from the
operations that completed before it.

**The whole cache.** `HandleProtocol` has the table of accessors, every accessor ever created (readers may hold it for
ever), one reconcile at a time per key, and what sources remember. A stale handle is dead in every continuation,
reconciles of different keys do not affect each other, and a Cluster that is gone is forgotten everywhere. Each accessor
of a run is shown to run `AccessorProtocol`, so its results, conservation of caches among them, hold in the whole cache.

**Time.** `Reconcile` is one reconcile past the readiness gate as a function of the answers of the outside world and its
readings of the clock. `ReconcileProtocol` is the thread that carries it out: it reads the accessor through its getters
and calls its operations step by step, with readers between any two steps, and its operations and its whole report are
those of the function. `Timing` treats runs: spacing, the counter, progress, and that an unauthorized probe is never
throttled; `TimedProtocol` carries them over to whole lives of an accessor among readers. `Deadline` proves that a
connection whose probes fail is gone after a deadline, under a stated scheduling hypothesis, and that the deadline is
attained. `Notify` treats the events of one source: complete, and repeated exactly in the cases it names.

**The objects.** `Accessor` and `ClusterCache` are the classes, with fields updated in place. Each method is proved to be
the corresponding function of the specification on the object's state, with its effect on caches, sources and other keys.

**The tracker** (`Tracker`) is a protocol of any number of threads that claim, act and give back. **The deep copy**
(`SchemaCopy`) is a separation proof on the heap over all fields of `JSONSchemaProps`. **Owner references**
(`OwnerRefs`) are edits of slices in their backing array, specified by functions on lists, which in turn act on the map
from owners to references that a list stands for.

## What the proofs show about the code

- A connect that fails at key generation leaves the cache it has just started running for ever. The conservation law
  counts these caches exactly.
- The package comment says that a connection is dropped after more than the threshold of failures
  (controllers/clustercache/doc.go:41). The code compares with `>=` (controllers/clustercache/cluster_accessor.go:364),
  and the model follows the code; the comment in main.go:301 agrees with the code.
- A probe-failure duration that is not positive is not reported for a cluster that was never connected, because the
  missing event time and the missing success time are both the zero time. `FailureIsReported` gives the exact condition.
- A probe failure of a cluster that was never connected is reported again if the Cluster is deleted and created again,
  because its success time is the zero time in both lifetimes and the event time was forgotten. `FailureCanRepeatIff`
  gives exactly the success times and durations that can be reported twice; the only others have negative durations.
- The wait after an unauthorized probe is a millisecond whatever the intervals are, so the wait is bounded by the larger
  interval exactly under the condition of `WaitIsWithinIntervalsIff`. The configuration that the code builds meets it.
- A nil from `ObjectTracker.Watch` may be followed by no watch: it may have found a claim that was then given back.
- `EnsureOwnerRef` adds a reference whose API version does not parse each time it is called. `RemoveOwnerRef` removes the
  first occurrence only, and the slice it was given then shows its old last element twice. `ReplaceOwnerRef` can
  introduce a duplicate, exactly if the target is named elsewhere.

## Hypotheses

Clock readings within a run do not decrease, and all are after the zero time. Reconciles of one key do not overlap.
`Deadline.Timely` says what the deadline assumes of scheduling: each reconcile of a connected accessor checks no later
than some delay after the wake-up asked for, a probe takes at most its timeout, and all delays of one cycle add up to at
most `delta`; `Deadline.NotOverdue` extends this to the present instant. The accessor configuration is fixed.

## Model

| member | source | states |
|---|---|---|
| `AtomicAccessor.ReplayConsistent` | controllers/clustercache/cluster_accessor.go:152-211 | in every state of every run of the accessor with atomic operations, a connection has a running cache and a private key, its watch set is the set of names started on that cache, and no name was ever started twice on one cache |
| `AtomicAccessor.PrivateKeyIsStable` | controllers/clustercache/cluster_accessor.go:268-279 | once generated, the private key is the same after every sequence of failed connects, disconnects and reconnects |
| `AtomicAccessor.ConnectionIsInTheLog` | controllers/clustercache/cluster_accessor.go:239-320 | there is a connection exactly if some connect of the log succeeded and no disconnect followed it |
| `AtomicAccessor.CounterCountsFailures` | controllers/clustercache/cluster_accessor.go:280-365 | the failure counter is the number of failed probes after the last successful probe or connect in the log of completed operations; whether a health check found a connection is decided from the log as well |
| `AtomicAccessor.WatchSetIsWhatWatchPromised` | controllers/clustercache/cluster_accessor.go:408-447 | the watch set is exactly the set of names for which `Watch` returned nil since the last connect; a failed start leaves no trace, a reconnect begins from the empty set |
| `AtomicAccessor.ConnectKeepsBalance` | controllers/clustercache/cluster_accessor.go:239-296 | a connect that fails at key generation adds one cache that nobody will stop; one that succeeds adds the installed cache; one that fails earlier adds none |
| `AtomicAccessor.DisconnectKeepsBalance` | controllers/clustercache/cluster_accessor.go:299-320 | a disconnect stops exactly the installed cache |
| `AtomicAccessor.CachesAreConserved` | controllers/clustercache/cluster_accessor.go:239-320 | in every run the running caches are the installed one and one for each connect that failed at key generation, counted exactly and known by index |
| `AtomicAccessor.InstalledCachesStop` | controllers/clustercache/cluster_accessor.go:299-320 | in every run a cache that was ever installed is stopped exactly when it is no longer installed |
| `AtomicAccessor.ReadersAreInvisibleToReconciler` | controllers/clustercache/cluster_accessor.go:368-468 | dropping all reader operations from a run leaves a run in which the reconciler's operations return the same values and end in the same state but for watches |
| `AccessorProtocol.ReconcilerStepSimulates` | controllers/clustercache/cluster_accessor.go:239-366 | each critical section or unlocked piece of work of `Connect`, `Disconnect` and `HealthCheck` is invisible to the atomic machine or completes one atomic operation with the value it returns there, and faults nowhere |
| `AccessorProtocol.ReaderStepSimulates` | controllers/clustercache/cluster_accessor.go:368-447 | the same for each critical section of `Watch` and the getters, which moreover leave all but the watch set alone |
| `AccessorProtocol.NoInterleavingFaults` | controllers/clustercache/cluster_accessor.go:232-447 | with one reconciler thread, no interleaving with any number of readers dereferences a missing connection, installs over a live one, records a probe of another connection or starts a watcher on a stopped cache |
| `AccessorProtocol.InterleavingsRefineAtomicRuns` | controllers/clustercache/cluster_accessor.go:223-447 | the operations of every interleaving, with the values they returned, are a run of the atomic machine that ends in the same state |
| `AccessorProtocol.CachesAreConservedInEveryInterleaving` | controllers/clustercache/cluster_accessor.go:250-320 | the conservation of caches in every interleaving in which no connect holds a started cache |
| `AccessorProtocol.WatchesAreStartedExactlyOnce` | controllers/clustercache/cluster_accessor.go:287-293 | in every interleaving no watcher is started twice on one cache, the watch set is the set of names started on the current cache, that cache runs, and there is a private key |
| `AccessorProtocol.PrivateKeyIsStableInEveryInterleaving` | controllers/clustercache/cluster_accessor.go:265-277 | a private key, once there, never changes in any interleaving |
| `AccessorProtocol.CounterCountsFailuresInEveryInterleaving` | controllers/clustercache/cluster_accessor.go:340-365 | the failure counter is the number of failed probes after the last success in the log, in every interleaving |
| `AccessorProtocol.OverlappingConnectsOverwrite` | controllers/clustercache/cluster_accessor.go:230-254 | the single-reconciler rule is needed: two overlapping connects install one connection over the other and leave two caches running |
| `AccessorProtocol.OverlappingDisconnectsFault` | controllers/clustercache/cluster_accessor.go:299-319 | the single-reconciler rule is needed: from every connected state, two overlapping disconnects dereference a missing connection |
| `AccessorAnswers.ConnectionIsOfLastConnect` | controllers/clustercache/cluster_accessor.go:287-293 | in every run the REST config, REST client, cached client and cache of the connection are those that the last successful connect built |
| `AccessorAnswers.KeyIsFirstGenerated` | controllers/clustercache/cluster_accessor.go:268-279 | in every run the private key is the one generated for the first successful connect, and there is none before it |
| `AccessorAnswers.StampsAreInTheLog` | controllers/clustercache/cluster_accessor.go:255-286 | in every run the error time is that of the last failed connect, the probe time that of the last successful connect or probe, and the success time that of the last of these that succeeded, or zero |
| `AccessorAnswers.AnswersAreInTheLog` | controllers/clustercache/cluster_accessor.go:223-468 | every value returned in a run is what the operations before it say: the clients of the connect that made the connection or not connected, the first generated key, the times, the error of a connect, the result of a watch, and the two flags of a health check |
| `AccessorAnswers.AnswersInEveryInterleaving` | controllers/clustercache/cluster_accessor.go:223-468 | and so is every value returned in every interleaving of one reconciler thread and any number of readers |
| `AccessorAnswers.ConnectionInEveryInterleaving` | controllers/clustercache/cluster_accessor.go:287-293 | in every interleaving the connection holds the clients and the cache of the connect that made it |
| `HandleProtocol.SystemStepKeepsInv` | controllers/clustercache/cluster_cache.go:407-433 | every step of the whole cache (any key's reconcile, any reader through a handle of any age, a new source) keeps the system invariant |
| `HandleProtocol.SystemIsSafe` | controllers/clustercache/cluster_cache.go:578-624 | in every run no accessor ever created faults, and a source remembers a key with no reconcile under way only if the table holds an accessor for it |
| `HandleProtocol.StaleHandleIsDead` | controllers/clustercache/cluster_cache.go:514-547 | an accessor that left the table stays disconnected in every continuation, even if the Cluster is created again, and every later caller is told that there is no connection and starts nothing |
| `HandleProtocol.GoneClusterIsForgotten` | controllers/clustercache/cluster_cache.go:411-420 | from the answer that the Cluster is gone to the end of that reconcile, whatever runs in between: the key ends in neither the table nor any source, and the accessor that was held is out of the table and disconnected |
| `HandleProtocol.ReconcilesAreIsolated` | controllers/clustercache/cluster_cache.go:520-624 | a step of one key's reconcile changes nothing that belongs to another key: table entry, phase, accessors old and new, event times |
| `HandleProtocol.RememberedTimeIsOfLastEvent` | controllers/clustercache/cluster_cache.go:605-624 | in every run a source remembers for a key the time of the last event it sent for it, unless the Cluster was found gone since |
| `HandleProtocol.AccessorsRunTheProtocol` | controllers/clustercache/cluster_cache.go:407-433 | every accessor of every run of the whole cache is in the state of a run of the single-accessor protocol, so everything proved there holds of it |
| `HandleProtocol.SystemAnswersAreInTheLogs` | controllers/clustercache/cluster_accessor.go:223-468 | in every run of the whole cache every value that any accessor ever returned is what its own history says |
| `HandleProtocol.SystemCachesAreConserved` | controllers/clustercache/cluster_accessor.go:239-320 | conservation of caches for every accessor of every run of the whole cache, reconciled, deleted or replaced |
| `HandleProtocol.OnlyLeaksOutlive` | controllers/clustercache/cluster_cache.go:411-420 | of an accessor that left the table nothing runs but the caches of connects that failed at key generation; every cache it ever installed is stopped |
| `Reconcile.MinDurationOrDefault` | controllers/clustercache/cluster_cache.go:564-576 | the result is a member and a lower bound of the durations, or the default if there are none |
| `Reconcile.ExactlyOneDuration` | controllers/clustercache/cluster_cache.go:435-512 | every reconcile past the readiness gate collects exactly one duration, and what is returned is it: the fallback is unreachable |
| `Reconcile.ReconcileDecides` | controllers/clustercache/cluster_cache.go:435-512 | the state, the wait and the two flags after a reconcile, case by case in terms of the clock readings and answers it got: throttled, failed attempt stamped, connection installed with its clients and fresh health, probe ok, failed, unauthorized |
| `ReconcileProtocol.ReconcileIsOps` | controllers/clustercache/cluster_cache.go:435-504 | a reconcile past the gate is the sequence of at most one connect, one health check and one disconnect it performs, each legal where it stands, and ends in their state |
| `ReconcileProtocol.AloneIsReconcile` | controllers/clustercache/cluster_cache.go:435-512 | without readers the thread reports what the pure reconcile reports and performs its operations |
| `ReconcileProtocol.InterleavedReconcileIsReconcile` | controllers/clustercache/cluster_cache.go:435-512 | the thread of a reconcile, which knows the accessor only by what its calls return, with any reader steps between any two of its steps: it performs the operations, sets the flags, collects the duration, reads the success time and leaves the state, but for watches, of the reconcile that runs alone, and that state, wait and flags are the ones its answers decide |
| `ReconcileProtocol.ReconcileIsNeverStuck` | controllers/clustercache/cluster_cache.go:435-512 | no interleaving with readers keeps the thread from its next step |
| `Timing.ConnectPhaseKeepsInv` | controllers/clustercache/cluster_cache.go:441-463 | the connect phase keeps the relation between timestamps, counter and history |
| `Timing.ProbePhaseKeepsInv` | controllers/clustercache/cluster_cache.go:465-504 | the probe phase keeps it |
| `Timing.FoldsSayWhatHappened` | controllers/clustercache/cluster_accessor.go:343-361 | the two folds over the history are the number of probes after the last success and the end of that success |
| `Timing.RunsAreSpaced` | controllers/clustercache/cluster_cache.go:441-504 | over every run: attempts start a retry interval after every earlier failure, probes a probe interval after the last contact of the same connection; timestamps are ordered; a connection at a reconcile boundary has failed fewer probes than the threshold, and the counter never exceeds it |
| `Timing.StampsTellTheHistory` | controllers/clustercache/cluster_accessor.go:280-365 | over every run: the counter is the number of probes since the last success in the history, and the success time is when that success ended, or zero |
| `Timing.LastSuccessNeverDecreases` | controllers/clustercache/cluster_accessor.go:280-286 | between any two points of a run the last success never moves back |
| `Timing.SuccessIsOfThisLifetime` | controllers/clustercache/cluster_accessor.go:214-219 | the last success is no earlier than the accessor, which is what the notifier's runs assume |
| `Timing.DueMeansAction` | controllers/clustercache/cluster_cache.go:551-562 | a reconcile at or after the due instant connects or probes |
| `Timing.WokenWhenDue` | controllers/clustercache/cluster_cache.go:435-512 | the wait asked for is positive, bounded, and ends when the next action is due |
| `Timing.ProbedIffWillProbe` | controllers/clustercache/cluster_cache.go:441-475 | the reconcile probes exactly when the connection is there and due, or it may connect, succeeds and a probe is due again |
| `Timing.WaitIsWithinIntervalsIff` | controllers/clustercache/cluster_cache.go:485-503 | the wait is within the larger of the two intervals exactly when the guards do not lead to a probe that is rejected as unauthorized, or that interval is at least a millisecond |
| `Timing.DefaultWaitIsWithinIntervals` | controllers/clustercache/cluster_cache.go:680-707 | with the configuration the code builds the wait is always positive and within the larger interval, 30 seconds |
| `Timing.DefaultScheduleIs` | controllers/clustercache/cluster_cache.go:680-707 | with the configuration the code builds, in nanoseconds: a probe is due 10 seconds after the last contact, a failed connect is retried after 30, the fifth failed probe in a row drops the connection, an unauthorized one asks for a millisecond |
| `Timing.WaitCanExceedShortIntervals` | controllers/clustercache/cluster_cache.go:486-491 | with intervals of a microsecond, which the code never builds, an unauthorized probe asks for a millisecond |
| `Timing.Progress` | controllers/clustercache/cluster_cache.go:435-512 | the next reconcile past the gate that is not earlier than asked for, whatever happens in between, attempts a connect or probes |
| `Timing.UnauthorizedLeavesOldError` | controllers/clustercache/cluster_cache.go:476-491 | after an unauthorized probe there is no connection and the last failed connect is at least the retry interval past |
| `Timing.UnauthorizedIsNeverThrottled` | controllers/clustercache/cluster_cache.go:476-491 | after an unauthorized probe the next reconcile past the gate attempts a connect, however early it comes |
| `TimedProtocol.LivesAreTimedRuns` | controllers/clustercache/cluster_cache.go:407-512 | reconcile after reconcile, each with readers between any two of its steps, the accessor is in the state of the timed run with the same reconciles, but for watches |
| `TimedProtocol.LivesAreSpaced` | controllers/clustercache/cluster_cache.go:407-512 | so the accessor that readers share has the stamps and the counter of a spaced history, and between reconciles a connection has failed fewer probes than the threshold |
| `Deadline.SuccessStartsTheClock` | controllers/clustercache/cluster_cache.go:465-512 | a reconcile that connects, or probes successfully, is on schedule and asks to be woken one interval after its last contact, even if it connects and then probes in vain |
| `Deadline.CycleKeepsSchedule` | controllers/clustercache/cluster_cache.go:465-512 | one more timely cycle with a failing probe ends by the deadline and uses up at most one cycle of it, early reconciles none |
| `Deadline.DropDeadline` | controllers/clustercache/cluster_cache.go:465-512 | if all probes fail, each reconcile that still finds the connection, hence the one that drops it, ends by last success + threshold * (interval + timeout + delay), with any number of extra early reconciles and of readers' watches; while it is up, the next probe delayed to the utmost still ends by then |
| `Deadline.ConnectionIsDropped` | controllers/clustercache/cluster_cache.go:465-512 | in a run that is timely up to now, after that deadline the connection is gone |
| `Deadline.DroppedWithinGracePeriod` | main.go:295-306 | with the built-in constants and delays below nine seconds per cycle, a connection whose probes all fail is gone when two minutes have passed since the last success |
| `Deadline.GracePeriodCanBeMissed` | main.go:295-306 | with delays of nine seconds or more, after every success there is a timely run of failing probes that still finds the connection and ends no earlier than the grace period |
| `Deadline.DeadlineIsAttained` | main.go:300-303 | no smaller bound holds: from every success there is a timely run that drops the connection exactly at the deadline |
| `Notify.ShouldSendEvent` | controllers/clustercache/cluster_cache.go:626-651 | the loop computes the reasons of the declarative definition, in order |
| `Notify.ReasonsAreTheDueOnes` | controllers/clustercache/cluster_cache.go:637-648 | the failure reasons are exactly the configured durations whose instant lies strictly between the last event and now |
| `Notify.ReasonsAreInOrder` | controllers/clustercache/cluster_cache.go:626-651 | connect, then disconnect, then the durations one after the other in the order configured |
| `Notify.RunKeepsMemoryInv` | controllers/clustercache/cluster_cache.go:605-651 | over every run of a source the reported instants increase strictly from event to event, and the remembered time is that of the last event of this lifetime of the Cluster |
| `Notify.FailureIsReportedAtMostOnce` | controllers/clustercache/cluster_cache.go:605-651 | within a lifetime of the Cluster the failure reason for one duration and one success time is given by at most one event; a second event is of another lifetime, and then the cluster was never connected in either or the duration is negative |
| `Notify.NeverConnectedIsReportedAgain` | controllers/clustercache/cluster_cache.go:578-585 | the exception is real: for every positive duration, a Cluster that is never connected, deleted and created again is reported twice for the zero success time |
| `Notify.FailureCanRepeatIff` | controllers/clustercache/cluster_cache.go:605-651 | some run reports a success time and a duration twice exactly when their sum is positive and the success time is zero or the duration is negative |
| `Notify.FailureIsReported` | controllers/clustercache/cluster_cache.go:605-651 | after an event step later than success + duration, an event at or after that instant has been sent exactly when something was sent before, the step connected or disconnected, or some configured instant that has passed is after the zero time |
| `Notify.ZeroDurationIsSilentBeforeFirstConnect` | controllers/clustercache/cluster_cache.go:637-648 | the exception is real: a duration of zero is never reported for a cluster that was never connected |
| `Accessor.StoppableCache.Stop` | controllers/clustercache/cluster_accessor_client.go:319-329 | however often a cache is stopped, its context is cancelled once |
| `Accessor.CreateCachedClient` | controllers/clustercache/cluster_accessor_client.go:215-277 | of the caches it makes, only the one it returns is left running; it returns one exactly if every call it makes succeeds and the cache syncs |
| `Accessor.CreateConnection` | controllers/clustercache/cluster_accessor_client.go:51-114 | a connection is built exactly if every step succeeds, from the right clients, and nothing else is left running |
| `Accessor.ClusterAccessor.constructor` | controllers/clustercache/cluster_accessor.go:214-219 | a new accessor is disconnected, without key and with zero times |
| `Accessor.ClusterAccessor.Connect` | controllers/clustercache/cluster_accessor.go:239-296 | is the atomic connect on the object's state; nil, creation error or key error exactly as the environment, the key and the generator say; a failure is stamped and changes nothing else; after success the connection has the clients of the environment (the in-cluster one exactly when the controller runs there), the key is the old one or the generated one, and the getters return these clients and this key; of the caches made by the call the one that runs is the one that was built, installed or lost |
| `Accessor.ClusterAccessor.Disconnect` | controllers/clustercache/cluster_accessor.go:299-320 | is the atomic disconnect on the object's state, the cache of the connection is stopped, and the client getters refuse |
| `Accessor.ClusterAccessor.HealthCheck` | controllers/clustercache/cluster_accessor.go:323-366 | is the atomic health check on the object's state; the stamps, the counter and the two flags for each probe outcome; the threshold is met with `>=`; nothing without a connection |
| `Accessor.ClusterAccessor.Watch` | controllers/clustercache/cluster_accessor.go:412-447 | is the atomic watch on the object's state; which of the four results it returns; an informer is added, on the running cache, exactly if the name was new and the watcher accepted |
| `Accessor.ClusterAccessor.ServedIffConnected` | controllers/clustercache/cluster_accessor.go:368-399 | in a valid state a client, a REST config and a watch are to be had exactly when a running cache of this cluster and a private key are behind the accessor |
| `ClusterCache.ReconcileAccessor` | controllers/clustercache/cluster_cache.go:435-504 | the ready path on an accessor object: the state, the one duration and the flags are those its answers decide, for every probe outcome and every outcome of an attempt; an attempt builds what the environment gives, of the caches it made only that of the connection runs, and a dropped connection's cache is stopped |
| `ClusterCache.ClusterCache.GetOrCreateClusterAccessor` | controllers/clustercache/cluster_cache.go:520-531 | the accessor in the map if there is one, else a new disconnected one that is then in the map; no other accessor changes |
| `ClusterCache.ClusterCache.GetClusterSource` | controllers/clustercache/cluster_cache.go:587-603 | a source that remembers and has sent nothing, with a memory of its own, is appended |
| `ClusterCache.ClusterCache.CleanupClusterSourcesForCluster` | controllers/clustercache/cluster_cache.go:578-585 | every source forgets the key, and nothing else of it changes |
| `ClusterCache.SourceStepsAreNotifySteps` | controllers/clustercache/cluster_cache.go:605-624 | for one key the event step of a source object is the event step of the runs in `Notify`, with the same reasons, and forgetting is forgetting there |
| `ClusterCache.ClusterCache.SendEventsToClusterSources` | controllers/clustercache/cluster_cache.go:605-624 | each source that has a reason sends one event with exactly its reasons and remembers the time; one that has none is unchanged |
| `ClusterCache.TellingTouchesOnlyKey` | controllers/clustercache/cluster_cache.go:605-624 | telling the sources changes no other key's event time, and they still remember only keys with an accessor |
| `ClusterCache.ForgettingTouchesOnlyKey` | controllers/clustercache/cluster_cache.go:578-585 | forgetting a key changes no other key's event time and sends nothing: the channel of every source is as before |
| `ClusterCache.ClusterCache.DropAccessor` | controllers/clustercache/cluster_cache.go:416-418 | the accessor is disconnected, its cache stopped, and it leaves the map; other accessors and all sources are as before |
| `ClusterCache.ClusterCache.Reconcile` | controllers/clustercache/cluster_cache.go:407-512 | each of the four outcomes of reading the Cluster; for a ready Cluster the new accessor state, the wait and the flags that the answers decide (unauthorized: no connection and a millisecond; failed: one failure more, same success time; ok: health of the probe's end; failed attempt: stamped with its end), what an attempt built and which caches run or are stopped, and the events of every source; 10 seconds after a read error; nothing of another key changes, and sources remember only keys with an accessor |
| `Tracker.StepKeepsInv` | controllers/external/tracker.go:47-70 | every step of any thread keeps: one claim per key, one successful watch per key, and a key in the map exactly when a claim is in flight or a watch has succeeded, never both |
| `Tracker.EveryInterleavingIsExclusive` | controllers/external/tracker.go:47-70 | hence so in every interleaving of any number of threads |
| `Tracker.WatchedForEver` | controllers/external/tracker.go:54-56 | a watched kind stays watched, once, and every later call for it returns nil at once |
| `Tracker.ReturnsAreEarned` | controllers/external/tracker.go:47-70 | in every run, for each thread and kind: nil was returned as often as its own watch was accepted or it found the key at its load-or-store, a missing set-up was reported as often as it was missing, and a failure once for each refused watch, except the one just being given back |
| `Tracker.NilWithoutWatch` | controllers/external/tracker.go:54-68 | a nil that came from finding the key may be followed by no watch at all |
| `Tracker.NilFromMapMeansWatchedIffNoClaim` | controllers/external/tracker.go:54-56 | such a nil means that the kind is watched exactly when no claim was in flight at that moment |
| `Tracker.ObjectTracker.Watch` | controllers/external/tracker.go:47-70 | a call that is not interrupted is the corresponding sequence of steps; it returns nil exactly if it was set up and found the key or its watch was accepted, and keeps the key exactly if the watch succeeded |
| `OwnerRefs.SameObjectIsSameOwner` | util/util.go:368-380 | the relation is equality of owners where both API versions parse, that is of group, kind and name, so a partial equivalence |
| `OwnerRefs.IndexOf` | util/util.go:338-345 | the first index that refers to the owner, or -1 if none does |
| `OwnerRefs.IndexOfUID` | util/util.go:313-321 | the first index that carries the UID, or -1 if none does |
| `OwnerRefs.EnsureUpdatesOwners` | util/util.go:300-307 | ensuring is an update of the map from owners to references that the list stands for |
| `OwnerRefs.RemoveDeletesOwner` | util/util.go:330-335 | removing is a deletion from that map |
| `OwnerRefs.EditsActOnOwners` | util/util.go:300-335 | every sequence of edits keeps a list without duplicates free of duplicates, and acts on the map as the same sequence of updates and deletions |
| `OwnerRefs.EnsureIsIdempotentIffParses` | util/util.go:300-307 | ensuring twice is ensuring once exactly if the API version parses |
| `OwnerRefs.EnsurePutsTheReference` | util/util.go:300-307 | afterwards the list has the reference, grew only if it was absent, and every other reference is where it was |
| `OwnerRefs.RemoveUndoesEnsure` | util/util.go:300-335 | removing an absent reference that was just ensured restores the list |
| `OwnerRefs.StillThereIffNamedTwice` | util/util.go:294-335 | after a removal the owner is still there exactly if it was named twice, so never in a list without duplicates |
| `OwnerRefs.RemoveTakesTheFirst` | util/util.go:330-335 | the first reference to the owner is gone, those before it stay and those behind it move up; without one nothing changes |
| `OwnerRefs.ReplacePutsTheTarget` | util/util.go:313-326 | the target itself stands where the first reference with the UID stood, or at the end if none carries it; every other reference is where it was |
| `OwnerRefs.ReplaceKeepsDistinctIffTargetNotElsewhere` | util/util.go:313-326 | replacing keeps a list free of duplicates exactly if the target is not named elsewhere |
| `OwnerRefs.IndexOwnerRef` | util/util.go:338-345 | the search loop finds that first index |
| `OwnerRefs.EnsureOwnerRef` | util/util.go:300-307 | the slice returned is the ensured list; the caller's slice shows the same list if the owner was there, else is unchanged |
| `OwnerRefs.ReplaceOwnerRef` | util/util.go:313-326 | the slice returned is the replaced list; the caller's slice shows the same list if the UID was there, else is unchanged |
| `OwnerRefs.RemoveOwnerRef` | util/util.go:330-335 | the slice returned is the list without the reference; the caller's slice then shows that list followed by its old last reference once more |
| `SchemaCopy.DeepCopyInto` | api/v1beta1/zz_generated.deepcopy.go:916-1033 | whatever the target held, it becomes a schema of the same value, nil kept apart from empty, made of itself and new objects only |
| `SchemaCopy.DeepCopy` | api/v1beta1/zz_generated.deepcopy.go:1036-1043 | nil for nil, else a schema of the same value made of new objects only |
| `SchemaCopy.CopyRange` | api/v1beta1/zz_generated.deepcopy.go:935-944 | new numbers with the same values, nil pointers kept nil |
| `SchemaCopy.CopyJSONs` | api/v1beta1/zz_generated.deepcopy.go:985-991 | a new slice of new JSON values with new bytes, in the same order |
| `SchemaCopy.CopySlice` | api/v1beta1/zz_generated.deepcopy.go:1007-1027 | a new slice of copies in the same order |
| `SchemaCopy.CopyMap` | api/v1beta1/zz_generated.deepcopy.go:923-929 | a new map with copies under the same keys |
| `SchemaCopy.CopyChildren` | api/v1beta1/zz_generated.deepcopy.go:923-1032 | every reference to schemas that is not nil is replaced by a copy, and nil is kept |
| `SchemaCopy.CopyMetadata` | api/v1beta1/zz_generated.deepcopy.go:2691-2707 | a new struct with new maps of the same entries, nil maps kept nil |
| `SchemaCopy.CopySurvivesMutation` | api/v1beta1/zz_generated.deepcopy.go:916-1043 | after any change of the original's objects the copy has the value the original had |
| `SchemaCopy.OriginalSurvivesMutation` | api/v1beta1/zz_generated.deepcopy.go:916-1043 | after any change of the copy's objects the original has its value |
| `SchemaCopy.ValueIsUnique` | api/v1beta1/zz_generated.deepcopy.go:916-1033 | an object structure has at most one value, so equal values mean equal structures |
| `SchemaCopy.AcyclicHasAValue` | api/v1beta1/zz_generated.deepcopy.go:916-1033 | every schema without a cycle, shared parts allowed, has a value, so all of the above applies to it and the copy terminates |

## Left out

- Network and client construction (`createRESTConfig`, `createHTTPClientAndMapper`, `runningOnWorkloadCluster`, the client with timeouts): only success or failure, and which client results, is an input.
- CreateConnection: does not model that the host and CA of the REST config are rewritten when the controller runs on the workload cluster.
- The informer, controller-runtime and workqueue machinery: one reconcile at a time per key and a bounded wake-up delay are hypotheses.
- SendEventsToClusterSources: does not model that a send on the channel blocks until it is received; the channel is the sequence of what was sent.
- GetClusterSource: does not model the map function and the handler of the source it returns.
- The classes `ClusterAccessor`, `ClusterCache` and `ObjectTracker` are for calls that run alone; interleaving is treated in `AccessorProtocol`, `HandleProtocol` and the steps of `Tracker`, where a critical section is one step.
- `SetConnectionCreationRetryInterval` and the fake cluster cache, which are for tests.
- The forwarding readers of the cluster cache (`GetClient`, `GetReader`, `Watch` and others by key): `HandleProtocol` lets any reader act through any handle instead.
- `validateAndDefaultOptions`, flags and manager wiring, which set the cache up before it runs.
- `schema.ParseGroupVersion` is an arbitrary partial function from API versions to groups; `GroupKind.String` gives an opaque key.
- Slices start at the beginning of their backing array; the capacity beyond the length is kept, and how far `append` grows is an input.
- The fields of `JSONSchemaProps` are grouped into records by what they refer to; numbers are unbounded integers, and the copy goes group by group on a value that is stored at the end, so what a reader of the half-copied target would see is not modelled.
- The deep copies of the other API types, and the helpers of `util` that do not edit owner references.
- Log messages, error texts and the wording of event reasons, which are tags here.
- The 64-bit width of times and durations.
