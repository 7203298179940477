/** Batch delivery with retry, and transactional writes. */
module BatchServices {
  import opened Model
  import opened Shadow
  import opened Stores
  import opened Batches
  import opened Itoa
  import opened System
  import opened Services
  import M = Machine
  import D = Devices

  class BatchService {
    const sync: SyncService
    var retryQueue: map<string, Batch>
    var seqNo: int

    /** The ops issued for each batch, and the batches that were closed. */
    ghost var batched: map<string, seq<DesiredOp>>
    ghost var closed: seq<BatchValue>

    /** Queued batches are filed under their ids, apart from the state of the devices. */
    ghost predicate Valid()
      reads this, sync.store`documents, sync.store`tombstones, sync.store`history, sync.store`ledger
      reads sync.store.ledger.live.docs, sync.store.ledger.past.docs, sync.store.ledger.past.maps
      reads sync.registry`devices, sync.registry`owned
    {
      sync.Valid() && 0 <= seqNo && this !in sync.registry.owned && QueueIsFiled()
    }

    ghost predicate QueueIsFiled()
      reads this, sync.registry`owned
    {
      forall id :: id in retryQueue ==> retryQueue[id].id == id && retryQueue[id] !in sync.registry.owned
    }

    ghost function Queue(): map<string, BatchValue>
      reads `retryQueue, retryQueue.Values
    {
      map id | id in retryQueue :: retryQueue[id].Value()
    }

    /** The queue, the batch counter and the logs are those of the system state. */
    ghost predicate Progress(s: Sys)
      reads this, retryQueue.Values
    {
      Queue() == s.queue && seqNo == s.seqNo && batched == s.batched && closed == s.closed
    }

    /** A batch is not part of the state of a device. */
    lemma BatchIsApart(batch: Batch)
      requires sync.Valid()
      ensures batch !in sync.registry.owned
    {
    }

    twostate lemma QueueStays()
      requires unchanged(`retryQueue)
      requires forall id :: id in retryQueue ==> unchanged(retryQueue[id])
      ensures Queue() == old(Queue())
    {
    }

    constructor (sync: SyncService)
      requires sync.Valid()
      ensures this.sync == sync && Valid()
      ensures retryQueue == map[] && seqNo == 0 && batched == map[] && closed == []
    {
      this.sync := sync;
      retryQueue, seqNo := map[], 0;
      batched, closed := map[], [];
    }

    /** Commits and delivers each item, and records on the batch how it went. */
    method RunPass(items: seq<BatchItem>, source: string, batch: Batch, now: int, ghost fleet: Fleet)
      returns (failedAny: bool, ghost after: Fleet)
      requires sync.Valid() && sync.Shows(fleet)
      modifies sync`issued, sync`sent, sync.versions
      modifies sync.store`documents, sync.store`history, sync.store`ledger, sync.registry.owned, batch
      ensures sync.Valid() && sync.store.Grew() && sync.Shows(after)
      ensures sync.registry.owned == old(sync.registry.owned)
      ensures |old(batch.failed)| <= |batch.failed| && (failedAny <==> |batch.failed| > |old(batch.failed)|)
      ensures (after, batch.Value()) == Pass(fleet, items, source, old(batch.Value()), now)
    {
      hide PassItem, SyncService.Shows, Store.Valid, D.Registry.Valid;
      BatchIsApart(batch);
      failedAny, after := false, fleet;
      for i := 0 to |items|
        invariant sync.Valid() && sync.store.Grew() && sync.Shows(after)
        invariant (after, batch.Value()) == Pass(fleet, items[..i], source, old(batch.Value()), now)
        invariant sync.registry.owned == old(sync.registry.owned)
        invariant |old(batch.failed)| <= |batch.failed| && (failedAny <==> |batch.failed| > |old(batch.failed)|)
      {
        assert items[..i + 1][..i] == items[..i];
        var ok;
        ok, after := RunItem(items[i], source, batch, now, after);
        failedAny := failedAny || !ok;
      }
      assert items[..|items|] == items;
    }

    method RunItem(item: BatchItem, source: string, batch: Batch, now: int, ghost fleet: Fleet)
      returns (ok: bool, ghost after: Fleet)
      requires sync.Valid() && sync.Shows(fleet)
      modifies sync`issued, sync`sent, sync.versions
      modifies sync.store`documents, sync.store`history, sync.store`ledger, sync.registry.owned, batch
      ensures sync.Valid() && sync.store.Grew() && sync.Shows(after)
      ensures sync.registry.owned == old(sync.registry.owned)
      ensures |batch.failed| == |old(batch.failed)| + if ok then 0 else 1
      ensures (after, batch.Value()) == PassItem(fleet, item, source, old(batch.Value()), now)
    {
      hide M.Write, Applied, Failed, SyncService.Shows, SyncService.Valid, Store.Grew;
      BatchIsApart(batch);
      sync.PartsAreOwned(item.deviceID);
      ghost var d := M.Write(fleet[item.deviceID], item.deviceID, item.props, source, now).0;
      after := fleet[item.deviceID := d];
      ok := DeliverItem(item, source, now, fleet, after);
      Note(batch, item.deviceID, ok, after);
    }

    method DeliverItem(item: BatchItem, source: string, now: int, ghost fleet: Fleet, ghost after: Fleet)
      returns (ok: bool)
      requires sync.Valid() && sync.Shows(fleet)
      requires after == fleet[item.deviceID := M.Write(fleet[item.deviceID], item.deviceID, item.props, source, now).0]
      modifies sync`issued, sync`sent, sync.versions
      modifies sync.store`documents, sync.store`history, sync.store`ledger, sync.registry.Parts(item.deviceID)
      ensures sync.Valid() && sync.store.Grew() && sync.Shows(after)
      ensures ok == M.Write(fleet[item.deviceID], item.deviceID, item.props, source, now).1
    {
      hide M.Write;
      assert sync.View(item.deviceID) == fleet[item.deviceID];
      label Before:
      ok := sync.Write(item.deviceID, item.props, source, now);
      forall id ensures sync.View(id) == after[id] {
        assert old@Before(sync.View(id)) == fleet[id];
      }
    }

    method Note(batch: Batch, id: string, ok: bool, ghost fleet: Fleet)
      requires sync.Valid() && sync.Shows(fleet)
      modifies batch
      ensures sync.Valid() && sync.Shows(fleet)
      ensures sync.store.ledger == old(sync.store.ledger)
      ensures batch.Value() == if ok then Applied(old(batch.Value()), id) else Failed(old(batch.Value()), id)
      ensures |batch.failed| == |old(batch.failed)| + if ok then 0 else 1
    {
      BatchIsApart(batch);
      if ok {
        batch.RecordApplied(id);
      } else {
        batch.MarkPartial(id);
      }
      sync.StaysApart(fleet);
    }

    /** The store marks the failed devices of a batch as stale. */
    method MarkDevices(failed: seq<string>, now: int, ghost fleet: Fleet)
      requires sync.Valid() && sync.Shows(fleet)
      modifies sync.store.ledger.live.docs
      ensures sync.Valid() && sync.Shows(MarkFailed(fleet, failed, now))
    {
      hide WithState, StoredFor, Recorded, D.Registry.Valid;
      sync.store.MarkBatchPartial(failed, now);
      ghost var after := MarkFailed(fleet, failed, now);
      forall id ensures sync.View(id) == after[id] {
        assert old(sync.View(id)) == fleet[id];
      }
    }

    method Finish(batch: Batch, ghost fleet: Fleet)
      requires sync.Valid() && sync.Shows(fleet)
      modifies batch
      ensures sync.Valid() && sync.Shows(fleet)
      ensures batch.Value() == Closed(old(batch.Value())) && batch.state == Done && batch.retryRemaining == 0
    {
      BatchIsApart(batch);
      batch.MarkDone();
      sync.StaysApart(fleet);
    }

    /** Takes the next batch number and makes its batch; the devices stay as they are. */
    method Open(items: seq<BatchItem>, ghost fleet: Fleet) returns (batch: Batch)
      requires Valid() && sync.Shows(fleet) && seqNo + 1 < INT64_LIMIT
      modifies this`seqNo
      ensures Valid() && sync.Shows(fleet) && Queue() == old(Queue())
      ensures seqNo == old(seqNo) + 1
      ensures fresh(batch) && batch.Value() == NewBatch(BatchID(seqNo), items)
      ensures batch.id == "batch-" + Decimal(seqNo) && batch.items == items
    {
      hide SyncService.Shows, Store.Valid, D.Registry.Valid;
      seqNo := seqNo + 1;
      var digits := Itoa.Itoa(seqNo);
      batch := new Batch("batch-" + digits, items);
      sync.StaysApart(fleet);
      QueueStays();
    }

    method Enqueue(batch: Batch)
      modifies this`retryQueue
      ensures retryQueue == old(retryQueue)[batch.id := batch]
      ensures Queue() == old(Queue())[batch.id := batch.Value()]
    {
      retryQueue := retryQueue[batch.id := batch];
    }

    /** There is always a system state that the service is in. */
    lemma StateIsShown() returns (s: Sys)
      requires Valid()
      ensures sync.Shows(s.devices) && Progress(s)
    {
      s := Sys(imap id: string | true :: sync.View(id), Queue(), seqNo, batched, closed);
    }

    /** Opens a batch and runs its first pass. */
    method BeginBatch(items: seq<BatchItem>, now: int, ghost fleet: Fleet) returns (batch: Batch, ghost devices: Fleet)
      requires Valid() && sync.Shows(fleet) && seqNo + 1 < INT64_LIMIT
      modifies this`seqNo, sync`issued, sync`sent, sync.versions
      modifies sync.store`documents, sync.store`history, sync.store`ledger, sync.registry.owned
      ensures Valid() && sync.store.Grew() && sync.Shows(devices)
      ensures fresh(batch)
      ensures (devices, batch.Value()) == Pass(fleet, items, "batch", NewBatch(BatchID(old(seqNo) + 1), items), now)
      ensures seqNo == old(seqNo) + 1 && Queue() == old(Queue())
    {
      hide Pass, SyncService.Shows, SyncService.Valid, NewBatch, BatchID, Queue;
      batch := Open(items, fleet);
      var failedAny;
      failedAny, devices := RunPass(items, "batch", batch, now, fleet);
      QueueStays();
    }

    /** Marks the failed devices and queues the batch for retry. */
    method Postpone(batch: Batch, now: int, ghost fleet: Fleet)
      requires Valid() && sync.Shows(fleet)
      modifies this`retryQueue, sync.store.ledger.live.docs
      ensures Valid() && sync.Shows(MarkFailed(fleet, batch.failed, now)) && batch.Value() == old(batch.Value())
      ensures Queue() == old(Queue())[batch.id := batch.Value()]
    {
      hide SyncService.Shows, Store.Valid, D.Registry.Valid, MarkFailed, Queue;
      BatchIsApart(batch);
      MarkDevices(batch.failed, now, fleet);
      QueueStays();
      label Marked:
      Enqueue(batch);
      sync.StaysApart@Marked(MarkFailed(fleet, batch.failed, now));
    }

    /** Marks a batch that is not queued as done. */
    method Conclude(batch: Batch, ghost fleet: Fleet)
      requires Valid() && sync.Shows(fleet)
      requires forall id :: id in retryQueue ==> retryQueue[id] != batch
      modifies this`closed, batch
      ensures Valid() && sync.Shows(fleet) && batch.Value() == Closed(old(batch.Value())) && batch.state == Done && batch.retryRemaining == 0
      ensures Queue() == old(Queue()) && closed == old(closed) + [batch.Value()]
    {
      hide SyncService.Shows, Store.Valid, D.Registry.Valid, Queue, Closed;
      closed := closed + [Closed(batch.Value())];
      sync.StaysApart(fleet);
      Finish(batch, fleet);
      QueueStays();
    }

    /** Queues a partial batch for retry, or closes one that was delivered everywhere. */
    method EndBatch(batch: Batch, now: int, ghost devices: Fleet, ghost ops: seq<DesiredOp>, ghost s: Sys)
      requires Valid() && sync.Shows(devices)
      requires forall id :: id in retryQueue ==> retryQueue[id] != batch
      requires Queue() == s.queue && seqNo == s.seqNo + 1 && batched == s.batched && closed == s.closed
      modifies this`retryQueue, this`batched, this`closed, batch, sync.store.ledger.live.docs
      ensures Valid()
      ensures var after := EndStart(s, devices, old(batch.Value()), ops, now);
              sync.Shows(after.devices) && Progress(after) && batch.Value() == Finished(old(batch.Value()))
      ensures batch.state == Partial || (batch.state == Done && batch.retryRemaining == 0)
    {
      hide SyncService.Shows, Store.Valid, D.Registry.Valid, MarkFailed, Queue, Closed;
      batched := batched[batch.id := ops];
      sync.StaysApart(devices);
      QueueStays();
      if batch.state == Partial {
        Postpone(batch, now, devices);
      } else {
        Conclude(batch, devices);
      }
    }

    /** Commits and delivers every item. When some item fails, its device stays
        stale and the batch is queued for retry; otherwise the batch is done. */
    method ApplyBatch(items: seq<BatchItem>, now: int, ghost s: Sys) returns (batch: Batch)
      requires Valid() && sync.Shows(s.devices) && Progress(s)
      requires seqNo + 1 < INT64_LIMIT
      modifies this, sync`issued, sync`sent, sync.versions
      modifies sync.store`documents, sync.store`history, sync.store`ledger, sync.registry.owned, sync.store.ledger.live.docs
      ensures Valid() && sync.store.Grew()
      ensures sync.Shows(StartBatch(s, items, now).devices) && Progress(StartBatch(s, items, now))
      ensures fresh(batch)
      ensures batch.Value() == Finished(Pass(s.devices, items, "batch", NewBatch(BatchID(s.seqNo + 1), items), now).1)
      ensures batch.state == Partial || (batch.state == Done && batch.retryRemaining == 0)
    {
      hide Pass, PassOps, SyncService.Shows, Store.Valid, D.Registry.Valid, NewBatch, BatchID, Queue, EndStart, Finished;
      ghost var devices;
      batch, devices := BeginBatch(items, now, s.devices);
      ghost var b := NewBatch(BatchID(s.seqNo + 1), items);
      EndBatch(batch, now, devices, PassOps(s.devices, items, "batch", b, now), s);
    }

    // ---- Retries ----

    twostate lemma QueueTouched(batch: Batch)
      requires unchanged(`retryQueue) && Valid()
      requires batch.id in retryQueue && retryQueue[batch.id] == batch
      requires forall id :: id in retryQueue && id != batch.id ==> unchanged(retryQueue[id])
      ensures Queue() == old(Queue())[batch.id := batch.Value()]
    {
    }

    /** Takes a queued batch off the queue and marks it done. */
    method Settle(batch: Batch, ghost fleet: Fleet)
      requires Valid() && sync.Shows(fleet)
      requires batch.id in retryQueue && retryQueue[batch.id] == batch
      modifies this`retryQueue, this`closed, batch
      ensures Valid() && sync.Shows(fleet)
      ensures retryQueue == old(retryQueue) - {batch.id}
      ensures Queue() == old(Queue()) - {batch.id}
      ensures closed == old(closed) + [Closed(old(batch.Value()))] && batch.state == Done && batch.retryRemaining == 0
    {
      hide SyncService.Shows, Store.Valid, D.Registry.Valid, Closed;
      retryQueue := retryQueue - {batch.id};
      sync.StaysApart(fleet);
      Conclude(batch, fleet);
    }

    /** The system state in which the queued batch has this value. */
    ghost function Advanced(s: Sys, b: BatchValue): Sys {
      s.(queue := s.queue[b.id := b])
    }

    /** Delivers the outstanding items of a queued batch once more, and records how it went. */
    method RetryPass(batch: Batch, items: seq<BatchItem>, now: int, ghost s: Sys)
      returns (failedAgain: bool, ghost devices: Fleet)
      requires Valid() && sync.Shows(s.devices) && Progress(s)
      requires batch.id in retryQueue && retryQueue[batch.id] == batch
      modifies sync`issued, sync`sent, sync.versions
      modifies sync.store`documents, sync.store`history, sync.store`ledger, sync.registry.owned, batch
      ensures Valid() && sync.store.Grew() && sync.Shows(devices)
      ensures (devices, batch.Value()) == Pass(s.devices, items, "batch-retry", old(batch.Value()), now)
      ensures failedAgain <==> |batch.failed| != |old(batch.failed)|
      ensures Progress(Advanced(s, batch.Value()))
    {
      hide Pass, SyncService.Shows, Store.Valid, D.Registry.Valid, Queue;
      failedAgain, devices := RunPass(items, "batch-retry", batch, now, s.devices);
      QueueTouched(batch);
    }

    /** Closes a batch whose retry failed nowhere; otherwise it stays queued. */
    method EndRetryPass(batch: Batch, failedAgain: bool, now: int, ghost devices: Fleet, ghost was: BatchValue, ghost s: Sys)
      requires Valid() && sync.Shows(devices) && Progress(Advanced(s, batch.Value()))
      requires batch.id in retryQueue && retryQueue[batch.id] == batch && was.id == batch.id
      requires failedAgain <==> |batch.failed| != |was.failed|
      modifies this`retryQueue, this`closed, batch, sync.store.ledger.live.docs
      ensures Valid()
      ensures retryQueue == if failedAgain then old(retryQueue) else old(retryQueue) - {batch.id}
      ensures var after := EndRetry(s, devices, was, old(batch.Value()), now);
              sync.Shows(after.devices) && Progress(after)
      ensures !failedAgain ==> batch.state == Done && batch.retryRemaining == 0
    {
      hide SyncService.Shows, Store.Valid, D.Registry.Valid, Closed, MarkFailed, Queue;
      if !failedAgain {
        Settle(batch, devices);
        assert s.queue[batch.id := old(batch.Value())] - {batch.id} == s.queue - {batch.id};
        return;
      }
      MarkDevices(batch.failed, now, devices);
      QueueStays();
    }

    /** Notes in the log which ops a retry is going to issue. */
    ghost method LogRetry(batchID: string, ops: seq<DesiredOp>, s: Sys) returns (next: Sys)
      requires Valid() && sync.Shows(s.devices) && Progress(s)
      modifies this`batched
      ensures Valid() && sync.Shows(s.devices) && Progress(next)
      ensures next == Retried(s, batchID, ops) && next.devices == s.devices
    {
      hide SyncService.Shows, Store.Valid, D.Registry.Valid, Queue;
      next := Retried(s, batchID, ops);
      batched := next.batched;
      sync.StaysApart(s.devices);
      QueueStays();
    }

    /** One retry of the outstanding items of a queued batch, whose ops are noted already. */
    method RetryItems(batch: Batch, items: seq<BatchItem>, now: int, ghost s: Sys) returns (failedAgain: bool)
      requires Valid() && sync.Shows(s.devices) && Progress(s)
      requires batch.id in retryQueue && retryQueue[batch.id] == batch
      modifies this`retryQueue, this`closed, sync`issued, sync`sent, sync.versions, batch
      modifies sync.store`documents, sync.store`history, sync.store`ledger, sync.registry.owned, sync.store.ledger.live.docs
      ensures Valid() && sync.store.Grew()
      ensures retryQueue == if failedAgain then old(retryQueue) else old(retryQueue) - {batch.id}
      ensures var (devices, progress) := Pass(s.devices, items, "batch-retry", old(batch.Value()), now);
              var after := EndRetry(s, devices, old(batch.Value()), progress, now);
              sync.Shows(after.devices) && Progress(after)
      ensures !failedAgain ==> batch.state == Done && batch.retryRemaining == 0
    {
      hide Pass, SyncService.Shows, Store.Valid, D.Registry.Valid, QueueIsFiled, EndRetry, Progress;
      ghost var was := batch.Value();
      ghost var devices;
      failedAgain, devices := RetryPass(batch, items, now, s);
      EndRetryPass(batch, failedAgain, now, devices, was, s);
    }

    /** Closes a queued batch that has nothing to retry. */
    method CloseEmpty(batch: Batch, ghost s: Sys)
      requires Valid() && sync.Shows(s.devices) && Progress(s)
      requires batch.id in retryQueue && retryQueue[batch.id] == batch
      modifies this`retryQueue, this`closed, batch
      ensures Valid() && sync.Shows(s.devices)
      ensures retryQueue == old(retryQueue) - {batch.id}
      ensures Progress(CloseBatch(s, s.devices, old(batch.Value()))) && batch.state == Done && batch.retryRemaining == 0
    {
      hide SyncService.Shows, Store.Valid, D.Registry.Valid, Closed, Queue, QueueIsFiled;
      Settle(batch, s.devices);
    }

    /** Lists what a queued batch has to retry. */
    method ListRetries(batch: Batch, ghost s: Sys) returns (items: seq<BatchItem>)
      requires Valid() && sync.Shows(s.devices) && Progress(s)
      requires batch.id in retryQueue && retryQueue[batch.id] == batch
      ensures Valid() && sync.Shows(s.devices) && Progress(s)
      ensures items == Outstanding(batch.items, batch.failed)
      ensures batch.id in s.queue && s.queue[batch.id] == batch.Value()
    {
      hide SyncService.Shows, Store.Valid, D.Registry.Valid, Outstanding, Queue, QueueIsFiled;
      QueueHolds(batch);
      items := batch.ListOutstanding();
      sync.StaysApart(s.devices);
      QueueStays();
    }

    /** One retry of the outstanding items of a queued batch. */
    method RetryListed(batch: Batch, items: seq<BatchItem>, now: int, ghost s: Sys) returns (failedAgain: bool)
      requires Valid() && sync.Shows(s.devices) && Progress(s)
      requires batch.id in retryQueue && retryQueue[batch.id] == batch
      modifies this`retryQueue, this`batched, this`closed, sync`issued, sync`sent, sync.versions, batch
      modifies sync.store`documents, sync.store`history, sync.store`ledger, sync.registry.owned, sync.store.ledger.live.docs
      ensures Valid() && sync.store.Grew()
      ensures retryQueue == if failedAgain then old(retryQueue) else old(retryQueue) - {batch.id}
      ensures var (devices, progress) := Pass(s.devices, items, "batch-retry", old(batch.Value()), now);
              var ops := PassOps(s.devices, items, "batch-retry", old(batch.Value()), now);
              var after := EndRetry(Retried(s, batch.id, ops), devices, old(batch.Value()), progress, now);
              sync.Shows(after.devices) && Progress(after)
      ensures !failedAgain ==> batch.state == Done && batch.retryRemaining == 0
    {
      hide Valid, SyncService.View, SyncService.Shows, Progress, Pass, PassOps, Retried, EndRetry;
      ghost var ops := PassOps(s.devices, items, "batch-retry", batch.Value(), now);
      ghost var next := LogRetry(batch.id, ops, s);
      failedAgain := RetryItems(batch, items, now, next);
    }

    /** Retries a queued batch; one without outstanding items is closed at once. */
    method RetryQueued(batch: Batch, now: int, ghost s: Sys) returns (done: bool)
      requires Valid() && sync.Shows(s.devices) && Progress(s)
      requires batch.id in retryQueue && retryQueue[batch.id] == batch
      modifies this`retryQueue, this`batched, this`closed, sync`issued, sync`sent, sync.versions, batch
      modifies sync.store`documents, sync.store`history, sync.store`ledger, sync.registry.owned, sync.store.ledger.live.docs
      ensures Valid() && sync.store.Grew()
      ensures sync.Shows(RetryBatch(s, batch.id, now).devices) && Progress(RetryBatch(s, batch.id, now))
      ensures retryQueue == if done then old(retryQueue) - {batch.id} else old(retryQueue)
      ensures done ==> batch.state == Done && batch.retryRemaining == 0
    {
      hide Valid, SyncService.View, Pass, PassOps, Retried, Progress, SyncService.Shows, Store.Valid, D.Registry.Valid, QueueIsFiled, Outstanding, EndRetry;
      var items := ListRetries(batch, s);
      if |items| == 0 {
        CloseEmpty(batch, s);
        return true;
      }
      var failedAgain := RetryListed(batch, items, now, s);
      return !failedAgain;
    }

    /** Delivers the failed items of a batch once more, and closes the batch
        when none of them fails again. */
    method RetryOutstanding(batchID: string, now: int, ghost s: Sys) returns (batch: Batch?, done: bool)
      requires Valid() && sync.Shows(s.devices) && Progress(s)
      modifies this`retryQueue, this`batched, this`closed, sync`issued, sync`sent, sync.versions
      modifies sync.store`documents, sync.store`history, sync.store`ledger, sync.registry.owned, sync.store.ledger.live.docs
      modifies if batchID in retryQueue then {retryQueue[batchID]} else {}
      ensures Valid() && sync.store.Grew()
      ensures sync.Shows(RetryBatch(s, batchID, now).devices) && Progress(RetryBatch(s, batchID, now))
      ensures batch == if batchID in old(retryQueue) then old(retryQueue)[batchID] else null
      ensures done <==> batchID in old(retryQueue) && batchID !in retryQueue
      ensures done ==> batch.state == Done && batch.retryRemaining == 0
    {
      hide Pass, PassOps, Retried, SyncService.Shows, Store.Valid, D.Registry.Valid, Outstanding, Closed, EndRetry, Queue;
      QueueKeys(batchID);
      if batchID !in retryQueue {
        return null, false;
      }
      batch := retryQueue[batchID];
      done := RetryQueued(batch, now, s);
    }

    // ---- Transactions ----

    /** Rolls one device back to the desired section that a plan kept of it. */
    method RollBack(plan: RollbackPlan, id: string, now: int)
      requires sync.Valid() && plan.applied == []
      modifies plan, sync.store`ledger, sync.store.ledger.live.docs
      ensures sync.Valid() && sync.store.Grew()
      ensures forall other :: sync.View(other) ==
                var d := old(sync.View(other));
                if other == id then d.(shadow := RolledBack(d.shadow, plan.BeforeOf(id), now)) else d
    {
      hide RolledBack, StoredFor, Recorded, AllRecorded, D.Registry.Valid;
      plan.Record(id);
      plan.Restore(sync.store, now);
    }

    /** Keeps the desired section of one device. */
    method PlanFor(id: string, props: Props) returns (plan: RollbackPlan)
      requires sync.Valid()
      ensures fresh(plan) && plan.applied == [] && plan.BeforeOf(id) == M.DesiredOf(sync.View(id).shadow)
    {
      hide M.DesiredOf, StoredFor, Recorded, D.Registry.Valid;
      plan := new RollbackPlan(sync.store, [BatchItem(id, props, 0)]);
    }

    /** Keeps the desired section of a device and writes to it. */
    method PlanAndWrite(id: string, props: Props, now: int) returns (plan: RollbackPlan, delivered: bool)
      requires sync.Valid()
      modifies sync`issued, sync`sent, sync.versions, sync.registry.Parts(id)
      modifies sync.store`documents, sync.store`history, sync.store`ledger
      ensures sync.Valid() && sync.store.Grew()
      ensures fresh(plan) && plan.applied == [] && plan.BeforeOf(id) == M.DesiredOf(old(sync.View(id)).shadow)
      ensures delivered == M.Write(old(sync.View(id)), id, props, "transaction", now).1
      ensures forall other :: sync.View(other) ==
                if other == id then M.Write(old(sync.View(id)), id, props, "transaction", now).0
                else old(sync.View(other))
    {
      hide M.Write, M.DesiredOf, StoredFor, Recorded, RollbackPlan.BeforeOf, D.Registry.Valid;
      plan := PlanFor(id, props);
      delivered := sync.Write(id, props, "transaction", now);
    }

    lemma TransactRollsBack(d: M.Device, id: string, props: Props, now: int)
      ensures var (written, ok) := M.Write(d, id, props, "transaction", now);
              M.Transact(d, id, props, now) ==
                if ok then written else written.(shadow := RolledBack(written.shadow, M.DesiredOf(d.shadow), now))
    {
    }

    /** One write that the store rolls back when it was not delivered. */
    method WriteOrRollBack(id: string, props: Props, now: int)
      requires sync.Valid()
      modifies sync`issued, sync`sent, sync.versions, sync.registry.Parts(id)
      modifies sync.store`documents, sync.store`history, sync.store`ledger, sync.store.ledger.live.docs
      ensures sync.Valid() && sync.store.Grew()
      ensures forall other :: sync.View(other) ==
                if other == id then M.Transact(old(sync.View(id)), id, props, now) else old(sync.View(other))
    {
      hide M.Write, M.Transact, RolledBack, M.DesiredOf, StoredFor, Recorded, D.Registry.Valid;
      TransactRollsBack(sync.View(id), id, props, now);
      var plan, delivered := PlanAndWrite(id, props, now);
      if !delivered {
        RollBack(plan, id, now);
      }
    }

    /** Writes nothing for empty props; otherwise one write, all or nothing. */
    method ApplyTransactional(id: string, props: Props, now: int) returns (doc: Document?)
      requires sync.Valid()
      modifies sync`issued, sync`sent, sync.versions, sync.registry.Parts(id)
      modifies sync.store`documents, sync.store`history, sync.store`ledger, sync.store.ledger.live.docs
      ensures sync.Valid()
      ensures forall other :: sync.View(other) ==
                if other == id && props != map[] then M.Apply(old(sync.View(id)), id, M.Transaction(props, now))
                else old(sync.View(other))
      ensures doc == null <==> sync.View(id).shadow.doc.None?
      ensures doc != null ==> fresh(doc.Parts()) && doc.Value() == sync.View(id).shadow.doc.value
    {
      hide M.Transact, StoredFor, Recorded, D.Registry.Valid;
      if |props| > 0 {
        WriteOrRollBack(id, props, now);
      }
      doc := sync.store.Snapshot(id);
    }

    lemma QueueHolds(batch: Batch)
      requires batch.id in retryQueue && retryQueue[batch.id] == batch
      ensures batch.id in Queue() && Queue()[batch.id] == batch.Value()
    {
    }

    lemma QueueKeys(id: string)
      ensures id in Queue() <==> id in retryQueue
    {
    }
  }
}
