/** The whole service: every device, and the batches waiting for retry. */
module System {
  import opened Model
  import opened Conflict
  import opened Shadow
  import opened Machine
  import opened Batches
  import opened Itoa

  /** The state of every device, known to the service or not. */
  type Fleet = f: imap<string, Device> | forall id :: id in f ghost witness (imap id: string | true :: NEW_DEVICE)

  /** `batched` and `closed` are logs: the ops issued for each batch, in its first
      pass and its retries, and the batches that left the service as done. */
  datatype Sys = Sys(
    devices: Fleet,
    queue: map<string, BatchValue>,
    seqNo: nat,
    batched: map<string, seq<DesiredOp>>,
    closed: seq<BatchValue>)

  datatype Call =
    | ApplyDesired(id: string, props: Props, source: string, now: int)
    | ApplyBatch(items: seq<BatchItem>, now: int)
    | RetryOutstanding(batchID: string, now: int)
    | ApplyTransactional(id: string, props: Props, now: int)
    | HandleReport(id: string, props: Props, baseVersion: int, clientID: string, policy: Policy, now: int)
    | DeleteShadow(id: string, now: int)
    | GCTombstones(cutoff: int)
    | RegisterDevice(id: string)
    | SetConnected(id: string, online: bool)
    | ResumeDevice(id: string, now: int)
    | ReconcileDevice(id: string, now: int)

  ghost const START := Sys(imap id: string | true :: NEW_DEVICE, map[], 0, map[], [])

  ghost function BatchID(seqNo: nat): string {
    "batch-" + Decimal(seqNo)
  }

  /** Writes and delivers one item, and records how it went. */
  ghost function PassItem(f: Fleet, item: BatchItem, source: string, b: BatchValue, now: int): (Fleet, BatchValue) {
    var (d, ok) := Write(f[item.deviceID], item.deviceID, item.props, source, now);
    (f[item.deviceID := d], if ok then Applied(b, item.deviceID) else Failed(b, item.deviceID))
  }

  /** One pass over a list of items. */
  ghost function Pass(f: Fleet, items: seq<BatchItem>, source: string, b: BatchValue, now: int): (Fleet, BatchValue) {
    if items == [] then (f, b)
    else
      var (before, progress) := Pass(f, items[..|items| - 1], source, b, now);
      PassItem(before, items[|items| - 1], source, progress, now)
  }

  /** The ops that a pass issues, in item order. */
  ghost function PassOps(f: Fleet, items: seq<BatchItem>, source: string, b: BatchValue, now: int): seq<DesiredOp> {
    if items == [] then []
    else
      var front, item := items[..|items| - 1], items[|items| - 1];
      var before := Pass(f, front, source, b, now).0;
      PassOps(f, front, source, b, now) +
      [DesiredOp(item.deviceID, item.props, before[item.deviceID].counter + 1, source)]
  }

  function OpsOf(batched: map<string, seq<DesiredOp>>, batchID: string): seq<DesiredOp> {
    if batchID in batched then batched[batchID] else []
  }

  /** Every device of `failed` goes stale. */
  ghost function MarkFailed(f: Fleet, failed: seq<string>, now: int): Fleet {
    imap id: string | true ::
      if id in failed then f[id].(shadow := WithState(f[id].shadow, Stale, now)) else f[id]
  }

  /** What the caller of a first pass gets back. */
  function Finished(b: BatchValue): BatchValue {
    if b.state == Partial then b else Closed(b)
  }

  /** A partial batch is queued for retry; any other is done. */
  ghost function EndStart(s: Sys, devices: Fleet, batch: BatchValue, ops: seq<DesiredOp>, now: int): Sys {
    var next := s.(seqNo := s.seqNo + 1, batched := s.batched[batch.id := ops]);
    if batch.state == Partial then
      next.(devices := MarkFailed(devices, batch.failed, now), queue := s.queue[batch.id := batch])
    else
      next.(devices := devices, closed := s.closed + [Closed(batch)])
  }

  ghost function StartBatch(s: Sys, items: seq<BatchItem>, now: int): Sys {
    var b := NewBatch(BatchID(s.seqNo + 1), items);
    var (devices, batch) := Pass(s.devices, items, "batch", b, now);
    EndStart(s, devices, batch, PassOps(s.devices, items, "batch", b, now), now)
  }

  ghost function CloseBatch(s: Sys, devices: Fleet, batch: BatchValue): Sys {
    s.(devices := devices, queue := s.queue - {batch.id}, closed := s.closed + [Closed(batch)])
  }

  /** The log with the ops of a retry. */
  ghost function Retried(s: Sys, batchID: string, ops: seq<DesiredOp>): Sys {
    s.(batched := s.batched[batchID := OpsOf(s.batched, batchID) + ops])
  }

  /** A retry that failed nowhere closes its batch; any other leaves it queued. */
  ghost function EndRetry(s: Sys, devices: Fleet, batch: BatchValue, progress: BatchValue, now: int): Sys {
    if |progress.failed| == |batch.failed| then CloseBatch(s, devices, progress)
    else s.(devices := MarkFailed(devices, progress.failed, now), queue := s.queue[batch.id := progress])
  }

  ghost function RetryBatch(s: Sys, batchID: string, now: int): Sys {
    if batchID !in s.queue then s
    else
      var batch := s.queue[batchID];
      var items := Outstanding(batch.items, batch.failed);
      if items == [] then CloseBatch(s, s.devices, batch)
      else
        var (devices, progress) := Pass(s.devices, items, "batch-retry", batch, now);
        EndRetry(Retried(s, batchID, PassOps(s.devices, items, "batch-retry", batch, now)), devices, batch, progress, now)
  }

  ghost function OneDevice(s: Sys, id: string, step: Step): Sys {
    s.(devices := s.devices[id := Apply(s.devices[id], id, step)])
  }

  ghost function CallStep(s: Sys, call: Call): Sys {
    match call
    case ApplyDesired(id, props, source, now) =>
      if props == map[] then s else OneDevice(s, id, Writes([props], source, false, now))
    case ApplyBatch(items, now) => StartBatch(s, items, now)
    case RetryOutstanding(batchID, now) => RetryBatch(s, batchID, now)
    case ApplyTransactional(id, props, now) =>
      if props == map[] then s else OneDevice(s, id, Transaction(props, now))
    case HandleReport(id, props, baseVersion, clientID, policy, now) =>
      OneDevice(s, id, Report(props, baseVersion, clientID, policy, now))
    case DeleteShadow(id, now) => OneDevice(s, id, Delete(now))
    case GCTombstones(cutoff) =>
      s.(devices := imap id: string | true :: Apply(s.devices[id], id, Collect(cutoff)))
    case RegisterDevice(id) => OneDevice(s, id, Register)
    case SetConnected(id, online) => OneDevice(s, id, SetOnline(online))
    case ResumeDevice(id, now) => OneDevice(s, id, Resume(now))
    case ReconcileDevice(id, now) => OneDevice(s, id, Reconcile(now))
  }

  ghost function RunCalls(calls: seq<Call>): Sys {
    if calls == [] then START
    else CallStep(RunCalls(calls[..|calls| - 1]), calls[|calls| - 1])
  }

  // ---- Every call is a step of each device ----

  /** The props that `items` write to one device, in order. */
  function PropsFor(items: seq<BatchItem>, id: string): seq<Props> {
    if items == [] then []
    else
      var rest, last := PropsFor(items[..|items| - 1], id), items[|items| - 1];
      if last.deviceID == id then rest + [last.props] else rest
  }

  /** What a pass over `items` does to one device. */
  function WritesFor(items: seq<BatchItem>, source: string, failed: seq<string>, now: int, id: string): seq<Step> {
    if PropsFor(items, id) == [] then []
    else [Writes(PropsFor(items, id), source, id in failed, now)]
  }

  /** What a call does to one device: nothing, or one step. */
  ghost function Effect(s: Sys, call: Call, id: string): seq<Step> {
    match call
    case ApplyDesired(other, props, source, now) =>
      if props == map[] || other != id then [] else [Writes([props], source, false, now)]
    case ApplyBatch(items, now) =>
      var batch := Pass(s.devices, items, "batch", NewBatch(BatchID(s.seqNo + 1), items), now).1;
      WritesFor(items, "batch", batch.failed, now, id)
    case RetryOutstanding(batchID, now) =>
      if batchID !in s.queue then []
      else
        var batch := s.queue[batchID];
        var items := Outstanding(batch.items, batch.failed);
        var progress := Pass(s.devices, items, "batch-retry", batch, now).1;
        WritesFor(items, "batch-retry",
                  if |progress.failed| == |batch.failed| then [] else progress.failed, now, id)
    case ApplyTransactional(other, props, now) =>
      if props == map[] || other != id then [] else [Transaction(props, now)]
    case HandleReport(other, props, baseVersion, clientID, policy, now) =>
      if other != id then [] else [Report(props, baseVersion, clientID, policy, now)]
    case DeleteShadow(other, now) => if other != id then [] else [Delete(now)]
    case GCTombstones(cutoff) => [Collect(cutoff)]
    case RegisterDevice(other) => if other != id then [] else [Register]
    case SetConnected(other, online) => if other != id then [] else [SetOnline(online)]
    case ResumeDevice(other, now) => if other != id then [] else [Resume(now)]
    case ReconcileDevice(other, now) => if other != id then [] else [Reconcile(now)]
  }

  /** The steps of one device in a run of calls. */
  ghost function Steps(calls: seq<Call>, id: string): seq<Step> {
    if calls == [] then []
    else
      var before := calls[..|calls| - 1];
      Steps(before, id) + Effect(RunCalls(before), calls[|calls| - 1], id)
  }

  /** A queued batch wrote to every device it has marked as failed. */
  ghost predicate FailedAreItems(b: BatchValue) {
    forall id :: id in b.failed ==> PropsFor(b.items, id) != []
  }

  lemma {:induction false} PassOnDevice(f: Fleet, items: seq<BatchItem>, source: string, b: BatchValue, now: int, id: string)
    ensures Pass(f, items, source, b, now).0[id] == WriteAll(f[id], id, PropsFor(items, id), source, now)
  {
    if items != [] {
      var last := |items| - 1;
      PassOnDevice(f, items[..last], source, b, now, id);
      var rest := PropsFor(items[..last], id);
      assert (rest + [items[last].props])[..|rest|] == rest;
    }
  }

  /** A pass only adds to the failed list, and only devices it wrote to. */
  lemma {:induction false} PassOnBatch(f: Fleet, items: seq<BatchItem>, source: string, b: BatchValue, now: int)
    ensures var after := Pass(f, items, source, b, now).1;
            && after.id == b.id && after.items == b.items
            && b.failed <= after.failed
            && (forall id :: id in after.failed ==> id in b.failed || PropsFor(items, id) != [])
            && (after.state == if |after.failed| > |b.failed| then Partial else b.state)
  {
    if items != [] {
      PassOnBatch(f, items[..|items| - 1], source, b, now);
    }
  }

  lemma {:induction false} PropsForItems(items: seq<BatchItem>, id: string)
    ensures PropsFor(items, id) != [] <==> exists item :: item in items && item.deviceID == id
  {
    if items != [] {
      PropsForItems(items[..|items| - 1], id);
      assert items == items[..|items| - 1] + [items[|items| - 1]];
      assert items[|items| - 1] in items;
    }
  }

  lemma OutstandingCovers(b: BatchValue, id: string)
    requires FailedAreItems(b)
    ensures PropsFor(Outstanding(b.items, b.failed), id) != [] <==> id in b.failed
  {
    PropsForItems(b.items, id);
    PropsForItems(Outstanding(b.items, b.failed), id);
  }

  ghost predicate QueueIsWritten(s: Sys) {
    forall batchID :: batchID in s.queue ==> s.queue[batchID].id == batchID && FailedAreItems(s.queue[batchID])
  }

  lemma ApplyOne(d: Device, id: string, step: Step)
    ensures ApplyAll(d, id, [step]) == Apply(d, id, step)
  {
    assert [step][..0] == [];
  }

  lemma StartIsSteps(s: Sys, items: seq<BatchItem>, now: int, id: string)
    ensures var effect := Effect(s, ApplyBatch(items, now), id);
            StartBatch(s, items, now).devices[id] == ApplyAll(s.devices[id], id, effect) && AllWellformed(effect)
    ensures QueueIsWritten(s) ==> QueueIsWritten(StartBatch(s, items, now))
  {
    hide Pass;
    var b := NewBatch(BatchID(s.seqNo + 1), items);
    PassOnBatch(s.devices, items, "batch", b, now);
    PassOnDevice(s.devices, items, "batch", b, now, id);
    var failed := Pass(s.devices, items, "batch", b, now).1.failed;
    ApplyOne(s.devices[id], id, Writes(PropsFor(items, id), "batch", id in failed, now));
  }

  /** A retry writes to the devices it has marked as failed, and to no other. */
  lemma RetryPassIsSteps(f: Fleet, b: BatchValue, now: int, id: string)
    requires FailedAreItems(b)
    ensures var items := Outstanding(b.items, b.failed);
            var (after, progress) := Pass(f, items, "batch-retry", b, now);
            && progress.id == b.id && progress.items == b.items && b.failed <= progress.failed
            && FailedAreItems(progress)
            && (PropsFor(items, id) == [] ==> after[id] == f[id])
            && (id in progress.failed ==> PropsFor(items, id) != [])
            && after[id] == WriteAll(f[id], id, PropsFor(items, id), "batch-retry", now)
  {
    hide Pass, Outstanding, PropsFor;
    var items := Outstanding(b.items, b.failed);
    PassOnBatch(f, items, "batch-retry", b, now);
    PassOnDevice(f, items, "batch-retry", b, now, id);
    forall other ensures PropsFor(items, other) != [] <==> other in b.failed {
      OutstandingCovers(b, other);
    }
  }

  lemma RetryIsSteps(s: Sys, batchID: string, now: int, id: string)
    requires QueueIsWritten(s)
    ensures var effect := Effect(s, RetryOutstanding(batchID, now), id);
            RetryBatch(s, batchID, now).devices[id] == ApplyAll(s.devices[id], id, effect) && AllWellformed(effect)
    ensures QueueIsWritten(RetryBatch(s, batchID, now))
  {
    hide Pass, PassOps, Outstanding, PropsFor, FailedAreItems, WriteAll;
    if batchID in s.queue {
      var b := s.queue[batchID];
      var items := Outstanding(b.items, b.failed);
      RetryPassIsSteps(s.devices, b, now, id);
      if items == [] {
        NothingFor(id);
      }
      var failed := Pass(s.devices, items, "batch-retry", b, now).1.failed;
      ApplyOne(s.devices[id], id, Writes(PropsFor(items, id), "batch-retry", |failed| != |b.failed| && id in failed, now));
    }
  }

  lemma NothingFor(id: string)
    ensures PropsFor([], id) == []
  {
  }

  lemma CallIsSteps(s: Sys, call: Call, id: string)
    requires QueueIsWritten(s)
    ensures var effect := Effect(s, call, id);
            CallStep(s, call).devices[id] == ApplyAll(s.devices[id], id, effect) && AllWellformed(effect)
    ensures QueueIsWritten(CallStep(s, call))
  {
    hide Pass, Apply, StartBatch, RetryBatch;
    var effect := Effect(s, call, id);
    match call
    case ApplyBatch(items, now) => StartIsSteps(s, items, now, id);
    case RetryOutstanding(batchID, now) => RetryIsSteps(s, batchID, now, id);
    case _ =>
      if effect != [] {
        ApplyOne(s.devices[id], id, effect[0]);
      }
  }

  /** In every run of the service, each device lives through its own run of
      steps; so whatever every run of steps guarantees, the service guarantees
      for every device. */
  lemma {:induction false} CallsAreSteps(calls: seq<Call>, id: string)
    ensures RunCalls(calls).devices[id] == Run(id, Steps(calls, id))
    ensures AllWellformed(Steps(calls, id))
    ensures QueueIsWritten(RunCalls(calls))
  {
    if calls != [] {
      var last := |calls| - 1;
      CallsAreSteps(calls[..last], id);
      CallIsSteps(RunCalls(calls[..last]), calls[last], id);
      ApplyAllConcat(NEW_DEVICE, id, Steps(calls[..last], id), Effect(RunCalls(calls[..last]), calls[last], id));
    }
  }
}
