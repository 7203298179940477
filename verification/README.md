# Device-shadow synchroniser: model and proofs

The service keeps one shadow document per device, with a desired section written
by operators and a reported section written by the device. A per-device allocator
numbers every operation; the store merges it, records a capped history of 20
events and fires a commit hook; the sync service pushes desired writes to the
device, or to its offline cache; a batch service retries what was not delivered;
a hub sends coalesced snapshots to subscribers. This project models those parts
and proves what they guarantee over whole runs.

## How the files fit together

* `Model`, `Conflict`, `Shadow`, `Handle`, `Replay`, `Batch`, `Itoa`: data and the
  elementary operations. What the source updates in place is a class
  (`Document`, `PropMap`, `ReplayPlan`, `Batch`), next to a datatype for its value;
  each section of a `Document` is a `PropMap` object of its own.
* `Machine`: one device as a state machine. Its state joins the version counter,
  the shadow, the handle (online flag, delivery watermark, cache) and two logs
  the service does not keep: the desired ops *issued* and the ops *sent*, that is,
  those whose delivery succeeded. The invariant `Ok` links all of them.
* `Guarantees`, `Reconciling`, `Reordering`, `Completeness`: theorems over every run of
  one device. `Reconciling` has the exact conditions on a reconcile.
* `Sections`, `Recording`, `Handover`, `Connectivity`: what a run leaves behind, told from its
  steps alone: reported values and the time of the document, the history and its last 20
  events, what a reconnect hands over, registration, connectivity and the cache watermark.
* `System`, `BatchGuarantees`, `BatchOutcomes`, `ServiceGuarantees`: the whole service as a machine
  over calls, the batch theorems, and the device theorems carried over to it. Its
  field `batched` logs the ops that each batch issued, first pass and retries.
* `Store`, `Device`, `Services`, `BatchService`, `Server`: the imperative code on the
  heap. `SyncService.View(id)` reads the state of one device off the store,
  the registry, the allocator and the logs; each method is proved to move that view
  by the machine's step and to leave every other device alone. The store's ghost `ledger`
  keeps the full log, the events the commit hook was called with, and which document
  and map objects are the store's or its history's; `Valid` says that these never
  mix and that the hook saw exactly what was recorded. `BatchService`
  is proved against `StartBatch` and `RetryBatch` of `System`: its methods take the
  system state they start from as a ghost parameter, and `StateIsShown` says there always is one.
* `Interleaving`: allocation and commit as two atomic steps, for any number of
  operations in flight.
* `Coalescing`, `Notify`: the hub as a protocol of concurrent flushers, and its
  critical sections on the heap, which are shown to be the protocol's steps.
* `Diff`: property differences between snapshots.

`SyncService` also holds the allocator and the steps that desired writes, batches,
retries and transactions share (number, commit, deliver). Time, the
conflict policy and the normalised properties are parameters. Integers are unbounded
except in `Itoa`, whose argument is an int64.

## Where the code and its comments differ

* The package comment of `internal/conflict/conflict.go` says that an operation is
  judged against its own section only. The merge rules do that
  (`Conflict.ShufflesAgree`), but the store compares a report with the overall version
  (`internal/shadow/shadow.go:49`). `Interleaving.GateIsStricter` gives exactly the reports
  it discards beyond the section rule, `Interleaving.StoreOrderMatters` exactly when the
  commit order of a write and a report decides the reported section, and
  `Interleaving.ReportIsLostBehindWrite` a run in which it does.
* The sync service says a reconnect never replays what the device received. `Resume`
  keeps this. `Reconcile` does not filter the cache by the watermark: in
  `Reordering.ReconcileDeliversTwice` a device receives its only write twice, and
  `Reconciling.ReconcileRepeats` says that this happens exactly when the cache holds a
  delivered version. `Reconciling.ReconcileKeepsOrder` says exactly when delivery stays in
  order, and `Reordering.OfflineReconcileReorders` is a run that ends with the device on an
  older write than the stored one while its watermark says it is up to date.
* A reconcile while offline drains the cache and keeps only the first planned op
  (`Guarantees.OfflineReconcileKeepsFirst`).
* A failed transaction is rolled back in the store only: its op stays in the history and,
  for an offline device, in the cache (`Guarantees.TransactionIsKept`), and the next reconnect
  hands it over. The device then holds the stored section exactly when it was
  connected at the transaction or the transaction changed nothing
  (`Guarantees.TransactionReachesDevice`; for a reconcile, `Guarantees.RolledBackWriteIsDelivered`).
* The history handler compares with the previous snapshot, and a delete has none, so
  what follows a delete is reported as unchanged; `Diffs.DiffIsExactWhen` gives the
  exact condition.
* Subscriber ids come from the number of subscribers. `Notify.NextIDInUse` says exactly
  when the next id is taken; a subscription under a taken id loses an open channel
  (`Notify.Hub.Subscribe`), and in `Notify.TakeOver` that happens after three
  subscriptions, with the first subscriber gone.

## Model

| member | source | states |
|---|---|---|
| Model.CloneMap | internal/model/doc.go:68-74 | a new map object with the same entries, in whatever order the keys come |
| Model.MergeMaps | internal/model/doc.go:78-84 | in whatever order the keys come, overlay values win and every other base entry survives, in a new map object |
| Model.Document.Clone | internal/model/doc.go:50-65 | a deep copy: a new object with two new maps and the same value, so nothing done to either or to its maps is seen through the other |
| Model.Document.RollBack | internal/shadow/shadow.go:126-134 | the in-place update of a rollback: former desired section, no lower version, state by emptiness |
| Conflict.MergeDesired | internal/conflict/conflict.go:42-61 | on a fresh clone: a stale write only touches the time, any other replaces the desired section whole |
| Conflict.MergeReport | internal/conflict/conflict.go:67-82 | on a fresh clone: a report stale by its base is dropped whole; any other sets each property it names to its own value and keeps every other one |
| Conflict.ApplyReport | internal/conflict/policy.go:20-32 | under a replacing policy a report based on exactly the reported version leaves just its own properties; otherwise key by key as above |
| Conflict.SectionsAreIndependent | internal/conflict/conflict.go:19-82 | a mixed run of writes and reports gives, section by section, what each kind alone gives, under either policy |
| Conflict.ShufflesAgree | internal/conflict/conflict.go:19-82 | every interleaving of the same writes with the same reports ends with the same two sections and three versions |
| Sections.AcceptedReportSetsKeys | internal/shadow/shadow.go:38-71 | an accepted report sets what it names, keeps or (as a full snapshot) drops the rest, takes the next version and leaves the desired section alone |
| Sections.OtherReportChangesNothing | internal/shadow/shadow.go:49-52 | any other report takes a version and changes nothing stored, but for creating an empty document |
| Sections.LastReportWins | internal/conflict/conflict.go:67-82 | over every run, a reported property has the value of the last accepted report that named it; none after a delete or a full snapshot without it |
| Sections.UnsettledIsUnreported | internal/conflict/conflict.go:67-82 | and none when no report ever named it |
| Sections.LastChangeIsStamped | internal/shadow/shadow.go:9-135 | over every run, a document is its device's own and carries the time of the last step that changed it |
| Shadow.WindowOfAppend | internal/shadow/audit.go:8-17 | trimming after each append always keeps the window of the full log |
| Recording.WindowIsLastTwenty | internal/shadow/audit.go:5-15 | the window is the last 20 events, and the whole log up to 20 |
| Recording.StepIsRecorded | internal/shadow/shadow.go:9-95 | what each step adds to the history: kind, version, time and snapshot; a delete is a delete event at version 0, and a failed transaction's write stays |
| Recording.VersionIsLarger | internal/shadow/shadow.go:138-146 | the overall version that is answered is the larger section version |
| Recording.HistoryShowsStored | internal/shadow/audit.go:8-35 | over every run, the latest event that is no reconnect carries the stored document, but for a desired section that was rolled back |
| Stores.RecordedAppend | internal/shadow/audit.go:8-17 | after an event is recorded the capped history in memory still mirrors the window of the full log, value by value, in the history's own documents and maps |
| Stores.AllStoredAfterPut | internal/shadow/store.go:60-70 | storing a document keeps every stored document and map among the store's own, and no stored device tombstoned |
| Stores.Store.Record | internal/shadow/audit.go:8-17 | the log grows by exactly this event and the history stays its window, for every device |
| Stores.Store.Ensure | internal/shadow/store.go:60-70 | a tombstoned device gets no document; any other gets the stored one or a new empty one |
| Stores.Store.ApplyDesired | internal/shadow/shadow.go:9-34 | commits the merge and its event, and calls the hook with that event, or nothing for a tombstoned device; other devices keep their objects; the answer shares no document and no map with the store |
| Stores.Store.ApplyReport | internal/shadow/shadow.go:38-71 | as above for reports; one based on less than the overall version is discarded, and the store still answers with a copy |
| Stores.Store.Delete | internal/shadow/shadow.go:75-95 | document gone, tombstone with this time, a delete event that the hook sees too; nothing else changes |
| Stores.Store.GCTombstones | internal/shadow/tombstone.go:13-24 | removes exactly the tombstones older than the cutoff and returns their number |
| Stores.Store.SetState | internal/shadow/shadow.go:106-115 | changes one stored document in place; the recorded history and every other document keep their values |
| Stores.Store.MarkBatchPartial | internal/shadow/shadow.go:99-103 | however often a device is listed, exactly the listed live devices become stale |
| Stores.Store.Restore | internal/shadow/shadow.go:119-135 | rolls one stored document back in place, with a new map; the recorded history keeps its values |
| Stores.Store.Publish | internal/shadow/shadow.go:150-153 | calls the hook with an event made outside the store and records it, one event longer each |
| Stores.Store.ListDesiredSince | internal/shadow/snapshot.go:45-64 | the desired writes of the window above the watermark, with the props they committed, in log order |
| Stores.Store.History | internal/shadow/audit.go:20-35 | the window of the log, with snapshots that are new objects with new maps |
| Stores.Store.Snapshot | internal/shadow/snapshot.go:11-19 | a new object with new maps and the stored value, or null exactly when there is none |
| Stores.Store.Announce | internal/shadow/shadow.go:25-31 | the hook and the history get a copy each of the committed document; both logs grow by this event, so they stay equal |
| Stores.Store.OutsideChangesNothing | internal/model/doc.go:48-65 | every view and every history depends on nothing but the objects the store holds |
| Stores.Store.ChangeOutside | internal/model/doc.go:48-65 | a caller that changes every field and both maps of a document it was given changes no view and no history |
| Devices.OfflineCache.Add | internal/device/cache.go:24-31 | appends the op, and raises the cache watermark to its version if that is larger |
| Devices.Registry.Register | internal/device/registry.go:32-41 | a known device keeps its handle; a new one is online, has watermark 0 and an empty cache of its own |
| Devices.Registry.SetOnline | internal/device/registry.go:59-65 | changes the flag of this device and of no other |
| Connectivity.NewDeviceIsConnected | internal/device/device.go:19-27 | a new device is connected and has received nothing |
| Connectivity.ConnectedByLastSetting | internal/device/registry.go:32-65 | over every run, a device is connected exactly when it was registered and not set offline or online since, or was last set online after that |
| Connectivity.WriteReachesConnected | internal/sync/sync.go:25-38 | a write is delivered at once, and moves the watermark to its version, exactly when the device stands connected; a registered one that does not has it cached |
| Connectivity.FirstWriteIsDelivered | internal/sync/sync.go:25-38 | the first write after a first registration is delivered |
| Connectivity.CacheWatermarkIsHighest | internal/device/cache.go:9-51 | over every run, the cache watermark is the highest version that was ever cached, drained or not |
| Replay.PlanKeepsFirstOccurrences | internal/sync/replay.go:15-35 | the plan is the first occurrence of each version, in order of first occurrence |
| Replay.PlanOfCovered | internal/sync/replay.go:15-24 | when every online op is cached too, the plan is exactly the cache |
| Replay.ReplayPlan.constructor | internal/sync/replay.go:15-24 | the list, the seen set and the maximum of the plan over cached ops followed by online ops |
| Replay.ReplayPlan.Add | internal/sync/replay.go:26-35 | adding an op keeps list, seen set and maximum those of everything added so far |
| Services.VersionAllocator.Next | internal/sync/version.go:22-28 | the next number of this device; the counters of others stay |
| Services.SyncService.Deliver | internal/sync/sync.go:25-38 | true exactly when the device is known and online, and then the watermark covers the op; an offline device has it cached |
| Services.SyncService.Resume | internal/sync/sync.go:42-63 | replays the newer writes up to the first failure and publishes a reconnect, for this device only |
| Services.SyncService.Reconcile | internal/sync/sync.go:67-91 | drains the cache, delivers the joined plan up to the first failure and publishes a reconnect |
| Services.SyncService.Write | internal/desired/batch.go:45-58 | the shared write: allocate, commit, deliver even when the store refused; other devices unchanged |
| Services.DesiredService.ApplyDesired | internal/desired/desired.go:27-45 | empty props change nothing; otherwise one write step; answers with a copy of what is stored |
| Services.ReportService.HandleReport | internal/report/report.go:27-46 | takes a version even for a discarded report; an error exactly for a tombstoned device |
| Services.RollbackRestores | internal/desired/rollback.go:40-50 | back to the pre-image, reported section and all versions kept, and a second rollback adds nothing |
| Services.RollbackPlan.constructor | internal/desired/rollback.go:18-32 | keeps the desired section of each listed device once, empty for a device without a shadow |
| Services.RollbackPlan.Restore | internal/desired/rollback.go:40-50 | exactly the recorded devices go back to their pre-images, whatever was recorded or written since |
| BatchServices.BatchService.RunPass | internal/desired/batch.go:43-57 | the item loop: devices and batch end as the system model's pass says |
| BatchServices.BatchService.ApplyBatch | internal/desired/batch.go:36-68 | every device, the queue and the batch end as the system model's batch step says |
| BatchServices.BatchService.RetryOutstanding | internal/desired/batch.go:72-113 | as above for retries; true exactly when the batch has left the queue |
| BatchServices.BatchService.ApplyTransactional | internal/desired/rollback.go:55-75 | one write, and when it was not delivered the stored desired section is put back |
| Servers.Server.Reconnect | cmd/deviceshadow/handlers.go:191-201 | online and resumed, the reconnect that the convergence theorem speaks of; answers the number replayed, the version and whether there is a tombstone |
| Servers.Server.Status | internal/shadow/shadow.go:138-146 | the stored overall version or 0, and whether there is a tombstone |
| Servers.Server.DeleteShadow | cmd/deviceshadow/handlers.go:182-189 | deletes one device's shadow and touches no other device |
| Servers.Server.CollectTombstones | internal/shadow/tombstone.go:13-24 | the collection step on every device at once |
| Batches.Batch.RecordApplied | internal/model/batch.go:43-48 | the device joins the applied list and the retry count drops, not below 0 |
| Batches.Batch.ListOutstanding | internal/model/batch.go:64-76 | exactly the items whose device is marked failed |
| BatchOutcomes.OutstandingKeepsOrder | internal/model/batch.go:64-76 | each of them once, in item order |
| BatchOutcomes.OutstandingForDevice | internal/model/batch.go:64-76 | so for each failed device all of its props, in their order, and none for another |
| Itoa.DecimalReadsBack | internal/desired/batch.go:126-138 | the digits read back to the number |
| Itoa.DecimalIsInjective | internal/desired/batch.go:126-138 | different numbers have different digits |
| Itoa.Itoa | internal/desired/batch.go:126-138 | no int64 leaves the 20-byte buffer, and the result is the decimal form, empty for a negative number |
| Machine.StepKeepsOk | internal/sync/sync.go:25-91 | every service call keeps the invariant that ties counter, document, history, watermark and cache together |
| Machine.RunIsOk | internal/sync/sync.go:25-91 | the invariant holds after every run |
| Machine.SinceIsFaithful | internal/shadow/snapshot.go:45-64 | the writes above a watermark are issued ops with their issued props, in increasing order |
| Machine.SinceEndsAtNewest | internal/shadow/snapshot.go:45-64 | they end at the newest write when the history still has it |
| Guarantees.DeliveriesAreOrdered | internal/sync/sync.go:25-63 | without a reconcile, delivered versions strictly increase and end at the delivery watermark, over every run |
| Guarantees.StateFollowsVersions | internal/shadow/shadow.go:9-135 | created, stale and synced follow from the two section versions and from whether the desired section is empty, through batch marking and rollback too; a stored document is never deleted or tombstoned |
| Guarantees.DeletedStaysDeleted | internal/shadow/store.go:60-70 | nothing recreates a deleted shadow before a collection with a cutoff above its latest deletion |
| Guarantees.CollectedShadowComesBack | internal/shadow/tombstone.go:13-24 | after a collection a write recreates the shadow exactly when the cutoff was above the deletion time |
| Guarantees.ReconnectReachesDesired | internal/sync/sync.go:42-63 | after a reconnect the watermark is the desired version if and only if that write was delivered or is still in the 20-event window |
| Guarantees.DesiredIsExplained | internal/desired/rollback.go:55-75 | the stored desired section is what was issued last, unless the latest write was a failed transaction: then it is what that was put back to |
| Guarantees.ReconnectConverges | internal/sync/sync.go:42-63 | then the device has received the desired version with the props issued last, which are the stored section if and only if no failed transaction changed something since; a second resume replays nothing |
| Handover.ResumeReplaysRecent | internal/shadow/snapshot.go:45-64 | a resume replays, of the writes a device has missed, exactly those among the last 20 events |
| Handover.ResumeHandsOver | internal/sync/sync.go:42-63 | it replays all of them, each once, in order and with its props, if and only if all are among the last 20 events |
| Handover.NothingMissedWithinWindow | internal/sync/sync.go:42-63 | over every run without a delete that adds at most 20 events, an up-to-date device gets everything it missed on its next reconnect |
| Guarantees.TransactionIsAllOrNothing | internal/desired/rollback.go:55-75 | on any device that is not tombstoned: delivered, or the desired section as before; the reported section stays and no version falls |
| Guarantees.TransactionIsKept | internal/desired/rollback.go:55-75 | its op is in the cache if and only if the device is registered and offline, and in the history if and only if the shadow is not tombstoned |
| Guarantees.TransactionReachesDevice | internal/desired/rollback.go:67-74 | delivered or not, the next reconnect leaves its op as the last one received, at the stored version; it carries the stored section if and only if the device was connected or the props were stored before |
| Guarantees.RolledBackWriteIsDelivered | internal/desired/rollback.go:67-74 | its op stays cached, and the next reconcile delivers it although the store has rolled it back |
| Guarantees.CacheAgreesWithHistory | internal/sync/replay.go:13-24 | a cached op and a history event of one version carry equal props, so keeping the cached one loses nothing |
| Guarantees.ReconcileDeliversPlan | internal/sync/sync.go:67-91 | an online reconcile delivers each planned version once, empties the cache, and lifts the watermark to the plan's highest |
| Reconciling.ReconcileRepeats | internal/sync/sync.go:67-91 | an online reconcile delivers no version again if and only if nothing in the cache was delivered before |
| Reconciling.ReconcileKeepsOrder | internal/sync/sync.go:67-91 | it keeps delivery in order if and only if each cached op is above the watermark and a new maximum or a repeat, and each newer window write that is not above the cache is cached |
| Guarantees.OfflineReconcileKeepsFirst | internal/sync/sync.go:72-80 | an offline reconcile delivers nothing and leaves only the first planned op in the cache |
| Reordering.OfflineReconcileReorders | internal/sync/sync.go:67-91 | a concrete run in which the device ends on an older write while its watermark equals the desired version |
| Reordering.ReconcileDeliversTwice | internal/sync/sync.go:67-91 | a concrete run, from registration, in which one write is delivered by the resume and again by the reconcile |
| Completeness.NothingLostNothingTwice | internal/sync/sync.go:67-91 | when every return online is a reconcile, what was sent followed by what is cached is exactly what was issued, in order |
| Completeness.ReconcilePlansTheBacklog | internal/sync/sync.go:67-91 | the plan after an absence is exactly the ops issued meanwhile, even those pushed out of the history |
| System.CallIsSteps | internal/desired/batch.go:36-113 | each call, batches and retries included, is at most one machine step for each device |
| System.CallsAreSteps | internal/desired/batch.go:36-113 | so every run of the service is, device by device, a run of the machine |
| ServiceGuarantees.ServiceDeliversInOrder | internal/sync/sync.go:25-63 | ordered delivery across direct, batch, retry, transaction and replay deliveries |
| ServiceGuarantees.ServiceConverges | cmd/deviceshadow/handlers.go:191-201 | convergence after any run of calls, with the exact condition on the props received |
| ServiceGuarantees.ServiceTransactionReaches | cmd/deviceshadow/handlers.go:191-201 | where a transaction ends, after any run of calls |
| ServiceGuarantees.ServiceStateFollowsVersions | internal/shadow/shadow.go:9-135 | the life cycle of every document after any run of calls |
| ServiceGuarantees.ServiceLosesNothing | internal/sync/sync.go:67-91 | after any run of calls that treats a device as it should be: what was sent followed by what is cached is what was issued |
| ServiceGuarantees.ServiceReconciles | internal/sync/sync.go:67-91 | what a reconcile delivers after any run of calls, and exactly when it repeats something |
| ServiceGuarantees.ServiceShowsLastReport | internal/report/report.go:27-46 | reported values after any run of calls |
| ServiceGuarantees.ServiceConnects | internal/device/registry.go:32-65 | registration and connectivity after any run of calls |
| ServiceGuarantees.ServiceHandsOver | cmd/deviceshadow/handlers.go:191-201 | what a reconnect hands over after any run of calls that adds at most 20 events |
| ServiceGuarantees.ServiceKeepsDeleted | internal/shadow/store.go:58-70 | no resurrection by any later calls |
| BatchGuarantees.PassTracks | internal/desired/batch.go:43-57 | after a pass each item was delivered or its device is marked failed, and its device is on a list |
| BatchGuarantees.NewIDIsFresh | internal/desired/batch.go:37-40 | a new batch never gets the id of an earlier one, so queueing never overwrites |
| BatchGuarantees.RunIsSound | internal/desired/batch.go:36-113 | the batch invariant holds after every run of calls |
| BatchGuarantees.DoneMeansDelivered | internal/desired/batch.go:66-67 | a batch that is done left the queue, and each item reached its device by an op issued for this batch |
| BatchGuarantees.BatchOpsAreItsOwn | internal/desired/batch.go:43-57 | those ops were issued by their devices, and no two batches share one |
| BatchGuarantees.QueuedMeansPartial | internal/desired/batch.go:59-64 | a queued batch is partial with a failed device, always has something to retry, and its lists cover all items |
| BatchGuarantees.RetrySetIsStable | internal/desired/batch.go:79-112 | over any later calls a queued batch keeps its set of failed devices and its outstanding items |
| BatchGuarantees.RetryRemainingCountsFailures | internal/model/batch.go:43-55 | when a first pass queues a batch, its retry count is the number of failures |
| BatchOutcomes.PassSplits | internal/desired/batch.go:43-57 | a pass puts exactly the reachable devices on the applied list and the others on the failed list, in item order |
| BatchOutcomes.StartQueuesUnreachable | internal/desired/batch.go:36-68 | a new batch is queued if and only if some item's device cannot be reached |
| BatchOutcomes.RetryClosesReachable | internal/desired/batch.go:72-113 | a retry closes its batch if and only if every failed device can be reached |
| BatchOutcomes.PassEndsWithLastItem | internal/desired/batch.go:43-57 | a pass leaves each device with the last item it has for it: issued last, stored unless tombstoned, received last if connected |
| BatchOutcomes.BatchEndsWithLastItem | internal/desired/batch.go:36-68 | so does a new batch, after any run of calls |
| BatchOutcomes.RetryEndsWithLastItem | internal/desired/batch.go:72-113 | and a retry, for each device marked failed |
| BatchOutcomes.ClosingRetryDelivers | internal/desired/batch.go:104-109 | when a retry closes its batch, every failed device has received its last item as the latest op, and the store holds it unless tombstoned |
| Interleaving.EveryRunIsSafe | internal/sync/version.go:22-28 | versions in flight and committed stay distinct and below the counter, in every interleaving |
| Interleaving.LastWriterWins | internal/conflict/conflict.go:42-61 | the stored desired section is that of the highest-version committed write, whatever the commit order |
| Interleaving.CommitOrderIsIrrelevant | internal/conflict/conflict.go:42-61 | two runs that committed the same writes in any orders store the same desired section |
| Interleaving.VersionsNeverDecrease | internal/shadow/shadow.go:9-71 | none of the three versions ever decreases |
| Interleaving.LandedReportKeepsChain | internal/shadow/shadow.go:45-54 | an accepted report sets the overall version to exactly its own |
| Interleaving.AcceptedReportSetsVersion | internal/conflict/conflict.go:67-82 | it does so if and only if its version is not below the current one |
| Interleaving.ReportsCompareAndSet | internal/shadow/shadow.go:45-54 | accepted base versions strictly increase, so at most one report is accepted per base |
| Interleaving.GateImpliesResolve | internal/conflict/conflict.go:28-31 | no report that passes the store gate is rejected by the conflict rules |
| Interleaving.GateIsStricter | internal/shadow/shadow.go:49-52 | the store leaves unchanged what the section rule would merge exactly for bases from the reported up to below the desired version |
| Interleaving.StoreOrderMatters | internal/shadow/shadow.go:38-54 | a write and a later-numbered report end with the same reported version in both commit orders if and only if the report is based on less than the stored version or on the write |
| Interleaving.ReportIsLostBehindWrite | internal/shadow/shadow.go:49-52 | a run of two operations whose commit order decides whether the report survives |
| Coalescing.ActionLosesNone | internal/notify/notify.go:70-114 | every atomic step of any flusher keeps the no-loss invariant |
| Coalescing.NoLostNotification | internal/notify/notify.go:70-114 | when nothing is queued and no flusher has anything to send, each subscriber was offered a snapshot as new as every notified commit |
| Coalescing.AllExitedMeansAllOffered | internal/notify/notify.go:86-114 | in particular once all flushers have exited |
| Coalescing.IterationsAreBounded | internal/notify/notify.go:86-114 | N notifications cause at most 2N flusher iterations |
| Coalescing.FlushersStop | internal/notify/notify.go:86-114 | each flusher step spends from that bounded budget or shortens the work left |
| Coalescing.FlushersNeverBlock | internal/notify/notify.go:105-112 | a flusher that has not exited can always take a step |
| Notify.NextIDInUse | internal/notify/notify.go:45-46 | when some of the first n subscribers have left, the next id is one in use if and only if the subscriber with that id is still there |
| Notify.NextIDIsNew | internal/notify/notify.go:45-46 | so ids are new as long as nobody unsubscribes |
| Notify.TakeOver | internal/notify/notify.go:36-66 | on any hub: two subscribe, the first leaves, and a third gets the second one's id; the second one's channel is then neither registered nor closed |
| Notify.Hub.Subscribe | internal/notify/notify.go:36-49 | a new channel of its own under the next id; some subscriber loses an open channel if and only if that id was in use |
| Notify.Hub.Unsubscribe | internal/notify/notify.go:52-66 | removes and closes this channel only, and forgets a device without subscribers; no registered channel is ever a closed one |
| Notify.Hub.Notify | internal/notify/notify.go:70-84 | queues a deep copy of the snapshot and calls for a flush, except for deletes and events without snapshot; nothing queued or sent is shared with the store |
| Notify.Channel.Offer | internal/notify/notify.go:108-111 | an offer is appended when the buffer has room, and dropped when it is full |
| Notify.DeleteIsAnnounced | internal/shadow/shadow.go:75-95 | a delete is announced as one delete event without snapshot, and the hub then holds no mark for the device |
| Notify.Hub.Flush | internal/notify/notify.go:86-114 | a flush alone ends, and each subscriber with room receives its own deep copy of what the store holds, once |
| Notify.Hub.ChangeReceived | internal/notify/notify.go:105-110 | whatever a subscriber does to a snapshot it received, and to its maps, no stored document and no history changes |
| Notify.Hub.StoreKeepsIsolation | internal/shadow/shadow.go:25-31 | whatever the store takes on, it stays apart from what is queued and what waits in channels |
| Notify.Hub.NotifyIsStep | internal/notify/notify.go:80-83 | the notification on the heap is the protocol's step |
| Notify.Hub.TakeIsStep | internal/notify/notify.go:91-100 | so is a flusher that takes the mark, and it then has exactly the channels the protocol gives it |
| Notify.Hub.OfferIsStep | internal/notify/notify.go:107-112 | so is each offer; the round ends exactly when every subscriber was offered a copy |
| Notify.Hub.SubscribeIsStep | internal/notify/notify.go:36-49 | so is a subscription under a new id |
| Diffs.ListIsUnique | internal/notify/snapshot.go:36-40 | sorting makes the key list independent of map order |
| Diffs.LessAtFirstDifference | internal/notify/snapshot.go:36-40 | the key order is that of a dictionary |
| Diffs.Diff | internal/notify/snapshot.go:18-54 | the three lists are sorted, duplicate-free and exactly the added, updated and removed keys; empty for a missing snapshot |
| Diffs.EffectiveBySection | internal/notify/snapshot.go:56-62 | the value of a key is its desired one, else its reported one, else none |
| Diffs.ListedBySection | internal/notify/snapshot.go:18-62 | which list names a key, by section: a changed desired value is an update, and a reported change under an unchanged desired value is in no list |
| Diffs.ExactIsUnique | internal/notify/snapshot.go:18-54 | there is one such change between two views |
| Diffs.ExactPatches | internal/notify/snapshot.go:18-62 | applying it with the new values gives the new view; the lists are disjoint; empty exactly when nothing changed |
| Diffs.DiffIsExactWhen | internal/notify/snapshot.go:20-22 | with a missing snapshot the change is exact only when there was nothing to report |
| Diffs.ListChanges | cmd/deviceshadow/handlers.go:85-101 | each listed change is the difference to the event before |
| Diffs.HistoryRebuilds | cmd/deviceshadow/handlers.go:85-101 | folding the changes along a history of snapshots rebuilds the last view from the first |

## Left out

- HTTP handlers, JSON, the console page, flags, tickers, wiring and demo data: input and output around the modelled calls.
- `NormalizeProps` and `ValidateDeviceID`: properties arrive normalised and ids valid; two keys that trim to the same string depend on map order.
- `PolicyForSource` and `SetPolicy`: the policy is a parameter, and every statement about reports covers both.
- Metrics, report statistics, overview counters, `Ack`, `PropertyCount`, `List`, `BySlot`, `PendingBatches`: counters and listings only.
- Hash slots and topic buckets: a foreign hash.
- `Unregister`, and `Unsubscribe` or deletes racing with concurrent flushers: not steps of the run models.
- Property maps of ops, batch items and rollback plans are values; those of documents, events and snapshots are objects.
- 64-bit wrap-around of versions and times: integers are unbounded outside `Itoa`.
- Mutexes: each critical section is one atomic step. History and delivery order are claimed for sequential runs only, since events are emitted and recorded after the store unlocks.
- What the commit hook does: `Stores.Store.Emit` records the call, and the hub's reaction is `Notify.Hub.Notify`, a separate call; a hook that changes the snapshot it is given is left out.
- The order in which two flushers' offers reach one subscriber: an older snapshot may be offered after a newer one, and a full channel drops an offer.
- `RetryRemaining` after a retry: the failed list is never cleared, so items delivered earlier are sent again and the count is not exact.
- BatchServices.BatchService.ApplyBatch: needs a batch number below 2^63, since the counter is an int64.
- Notify.Hub.Subscribe: needs fewer than 2^63 subscribers of a device, likewise.
- Stores.Store.Publish: a published event gives the hook and the history one and the same snapshot object, as the code does, so there a hook that changed it would change the history.
- Services.RollbackPlan.Restore: restores desired sections only; what a device already cached or received is not taken back.
- Guarantees.ReconnectConverges: for a latest write that fell out of the window and was not delivered, `Guarantees.ReconnectReachesDesired` says that the watermark stays behind.
