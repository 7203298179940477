/** What every run of the service guarantees about its batches. */
module BatchGuarantees {
  import opened Model
  import opened Machine
  import opened Batches
  import opened Itoa
  import opened System

  // ---- Deliveries of batch items ----

  /** One of these ops, with the item's device and props, was received. */
  ghost predicate Received(sent: seq<DesiredOp>, ops: seq<DesiredOp>, item: BatchItem) {
    exists k :: 0 <= k < |sent| && sent[k] in ops && sent[k].deviceID == item.deviceID && sent[k].props == item.props
  }

  /** The item reached its device, by one of the ops issued for its batch. */
  ghost predicate Delivered(ops: seq<DesiredOp>, f: Fleet, item: BatchItem) {
    Received(f[item.deviceID].sent, ops, item)
  }

  ghost predicate GrewOn(f: Fleet, after: Fleet, id: string) {
    f[id].sent <= after[id].sent && f[id].issued <= after[id].issued && f[id].counter <= after[id].counter
  }

  /** Nothing a device received or was sent is ever taken back, and its counter never falls. */
  ghost predicate Grew(f: Fleet, after: Fleet) {
    forall id :: GrewOn(f, after, id)
  }

  lemma DeliveredStays(ops: seq<DesiredOp>, more: seq<DesiredOp>, f: Fleet, after: Fleet, item: BatchItem)
    requires Delivered(ops, f, item) && Grew(f, after)
    ensures Delivered(ops + more, after, item)
  {
    var sent := f[item.deviceID].sent;
    var k :| 0 <= k < |sent| && sent[k] in ops && sent[k].deviceID == item.deviceID && sent[k].props == item.props;
    assert GrewOn(f, after, item.deviceID);
    assert after[item.deviceID].sent[k] == sent[k];
  }

  lemma {:induction false} DeliverAllGrows(d: Device, ops: seq<DesiredOp>)
    ensures var after := DeliverAll(d, ops);
            d.sent <= after.sent && after.issued == d.issued && after.counter == d.counter
    decreases |ops|
  {
    if ops != [] && Deliver(d, ops[0]).1 {
      DeliverAllGrows(Deliver(d, ops[0]).0, ops[1..]);
    }
  }

  lemma {:induction false} WriteAllGrows(d: Device, id: string, batch: seq<Props>, source: string, now: int)
    ensures var after := WriteAll(d, id, batch, source, now);
            d.sent <= after.sent && d.issued <= after.issued && d.counter <= after.counter
  {
    if batch != [] {
      WriteAllGrows(d, id, batch[..|batch| - 1], source, now);
    }
  }

  lemma StepGrows(d: Device, id: string, step: Step)
    ensures var after := Apply(d, id, step);
            d.sent <= after.sent && d.issued <= after.issued && d.counter <= after.counter
  {
    match step
    case Writes(batch, source, partial, now) => WriteAllGrows(d, id, batch, source, now);
    case Resume(now) => DeliverAllGrows(d, ResumeOps(d, id));
    case Reconcile(now) =>
      if d.handle.Some? {
        DeliverAllGrows(Drained(d), ReconcileOps(d, id));
      }
    case _ =>
  }

  lemma LastGrows(f: Fleet, items: seq<BatchItem>, source: string, b: BatchValue, now: int)
    requires items != []
    ensures Grew(Pass(f, items[..|items| - 1], source, b, now).0, Pass(f, items, source, b, now).0)
  {
    var item := items[|items| - 1];
    var before := Pass(f, items[..|items| - 1], source, b, now).0;
    forall id ensures GrewOn(before, Pass(f, items, source, b, now).0, id) {
    }
  }

  lemma {:induction false} PassGrows(f: Fleet, items: seq<BatchItem>, source: string, b: BatchValue, now: int)
    ensures Grew(f, Pass(f, items, source, b, now).0)
  {
    if items != [] {
      PassGrows(f, items[..|items| - 1], source, b, now);
      LastGrows(f, items, source, b, now);
      GrewTwice(f, Pass(f, items[..|items| - 1], source, b, now).0, Pass(f, items, source, b, now).0);
    }
  }

  lemma GrewTwice(f: Fleet, g: Fleet, h: Fleet)
    requires Grew(f, g) && Grew(g, h)
    ensures Grew(f, h)
  {
    forall id ensures GrewOn(f, h, id) {
      assert GrewOn(f, g, id) && GrewOn(g, h, id);
    }
  }

  lemma {:induction false} PassLists(f: Fleet, items: seq<BatchItem>, source: string, b: BatchValue, now: int)
    ensures var progress := Pass(f, items, source, b, now).1;
            b.applied <= progress.applied && b.failed <= progress.failed
  {
    if items != [] {
      PassLists(f, items[..|items| - 1], source, b, now);
    }
  }

  // ---- The ops of a batch ----

  /** These ops were issued by their devices. */
  ghost predicate AreIssued(ops: seq<DesiredOp>, f: Fleet) {
    forall op :: op in ops ==> op in f[op.deviceID].issued && op.version <= f[op.deviceID].counter
  }

  /** These ops are newer than anything their devices had issued. */
  ghost predicate AreNew(ops: seq<DesiredOp>, f: Fleet) {
    forall op :: op in ops ==> op.version > f[op.deviceID].counter
  }

  ghost predicate Apart(a: seq<DesiredOp>, b: seq<DesiredOp>) {
    forall op :: op in a ==> op !in b
  }

  lemma IssuedStays(ops: seq<DesiredOp>, f: Fleet, after: Fleet)
    requires AreIssued(ops, f) && Grew(f, after)
    ensures AreIssued(ops, after)
  {
    forall op | op in ops ensures op in after[op.deviceID].issued && op.version <= after[op.deviceID].counter {
      assert GrewOn(f, after, op.deviceID);
    }
  }

  lemma NewOpsAreApart(old_: seq<DesiredOp>, ops: seq<DesiredOp>, f: Fleet)
    requires AreIssued(old_, f) && AreNew(ops, f)
    ensures Apart(old_, ops) && Apart(ops, old_)
  {
  }

  lemma WriteIssues(d: Device, id: string, props: Props, source: string, now: int)
    ensures var after := Write(d, id, props, source, now).0;
            after.issued == d.issued + [DesiredOp(id, props, d.counter + 1, source)] && after.counter == d.counter + 1
  {
  }

  lemma OneMoreIssued(ops: seq<DesiredOp>, f: Fleet, before: Fleet, after: Fleet, op: DesiredOp)
    requires AreIssued(ops, after) && AreNew(ops, f) && Grew(f, before)
    requires after[op.deviceID].issued == before[op.deviceID].issued + [op]
    requires op.version == after[op.deviceID].counter == before[op.deviceID].counter + 1
    ensures AreIssued(ops + [op], after) && AreNew(ops + [op], f)
  {
    assert GrewOn(f, before, op.deviceID);
  }

  lemma {:induction false} PassOpsAreIssued(f: Fleet, items: seq<BatchItem>, source: string, b: BatchValue, now: int)
    ensures var ops := PassOps(f, items, source, b, now);
            AreIssued(ops, Pass(f, items, source, b, now).0) && AreNew(ops, f)
  {
    if items != [] {
      hide AreIssued, AreNew, Grew;
      var front, item := items[..|items| - 1], items[|items| - 1];
      var before, after := Pass(f, front, source, b, now).0, Pass(f, items, source, b, now).0;
      PassOpsAreIssued(f, front, source, b, now);
      PassGrows(f, front, source, b, now);
      LastGrows(f, items, source, b, now);
      IssuedStays(PassOps(f, front, source, b, now), before, after);
      var op := DesiredOp(item.deviceID, item.props, before[item.deviceID].counter + 1, source);
      WriteIssues(before[item.deviceID], item.deviceID, item.props, source, now);
      OneMoreIssued(PassOps(f, front, source, b, now), f, before, after, op);
    }
  }

  /** Where a pass leaves one item: delivered, or with its device marked as
      failed; and its device on the applied or the failed list. */
  ghost predicate Tracked(ops: seq<DesiredOp>, f: Fleet, b: BatchValue, item: BatchItem) {
    && (Delivered(ops, f, item) || item.deviceID in b.failed)
    && (item.deviceID in b.applied || item.deviceID in b.failed)
  }

  lemma LastIsTracked(f: Fleet, items: seq<BatchItem>, source: string, b: BatchValue, now: int)
    requires items != []
    ensures var (after, progress) := Pass(f, items, source, b, now);
            var ops, item := PassOps(f, items, source, b, now), items[|items| - 1];
            && Tracked(ops, after, progress, item)
            && (|progress.failed| == |b.failed| ==> Delivered(ops, after, item))
  {
    var last, item := |items| - 1, items[|items| - 1];
    var before := Pass(f, items[..last], source, b, now).0;
    PassLists(f, items[..last], source, b, now);
    var (d, ok) := Write(before[item.deviceID], item.deviceID, item.props, source, now);
    var op := DesiredOp(item.deviceID, item.props, before[item.deviceID].counter + 1, source);
    if ok {
      assert d.sent[|d.sent| - 1] == op && op in PassOps(f, items, source, b, now);
    }
  }

  lemma {:induction false} PassTracks(f: Fleet, items: seq<BatchItem>, source: string, b: BatchValue, now: int, i: nat)
    requires i < |items|
    ensures var (after, progress) := Pass(f, items, source, b, now);
            var ops := PassOps(f, items, source, b, now);
            && Tracked(ops, after, progress, items[i])
            && (|progress.failed| == |b.failed| ==> Delivered(ops, after, items[i]))
  {
    var last := |items| - 1;
    if i == last {
      LastIsTracked(f, items, source, b, now);
    } else {
      var (before, earlier) := Pass(f, items[..last], source, b, now);
      var (after, progress) := Pass(f, items, source, b, now);
      var front, ops := PassOps(f, items[..last], source, b, now), PassOps(f, items, source, b, now);
      PassTracks(f, items[..last], source, b, now, i);
      PassLists(f, items[..last], source, b, now);
      if Delivered(front, before, items[i]) {
        LastGrows(f, items, source, b, now);
        DeliveredStays(front, ops[|front|..], before, after, items[i]);
        assert front + ops[|front|..] == ops;
      }
    }
  }

  // ---- Batch ids ----

  /** One of the ids handed out so far. */
  ghost predicate IsID(batchID: string, seqNo: nat) {
    exists k: nat :: 1 <= k <= seqNo && batchID == BatchID(k)
  }

  lemma BatchIDIsInjective(m: nat, n: nat)
    requires BatchID(m) == BatchID(n)
    ensures m == n
  {
    assert BatchID(m)[|"batch-"|..] == Decimal(m) && BatchID(n)[|"batch-"|..] == Decimal(n);
    DecimalIsInjective(m, n);
  }

  /** A new batch never gets the id of an earlier one. */
  lemma NewIDIsFresh(seqNo: nat)
    ensures !IsID(BatchID(seqNo + 1), seqNo)
    ensures IsID(BatchID(seqNo + 1), seqNo + 1)
    ensures forall batchID :: IsID(batchID, seqNo) ==> IsID(batchID, seqNo + 1)
  {
    if IsID(BatchID(seqNo + 1), seqNo) {
      var k: nat :| 1 <= k <= seqNo && BatchID(seqNo + 1) == BatchID(k);
      BatchIDIsInjective(seqNo + 1, k);
    }
  }

  // ---- The invariant ----

  ghost predicate Covered(ops: seq<DesiredOp>, f: Fleet, b: BatchValue) {
    forall i :: 0 <= i < |b.items| ==> Tracked(ops, f, b, b.items[i])
  }

  ghost predicate AllDelivered(ops: seq<DesiredOp>, f: Fleet, b: BatchValue) {
    forall i :: 0 <= i < |b.items| ==> Delivered(ops, f, b.items[i])
  }

  /** A queued batch is partial, and what is not marked failed was delivered. */
  ghost predicate QueuedOk(s: Sys, batchID: string)
    requires batchID in s.queue
  {
    var b := s.queue[batchID];
    && b.id == batchID && batchID in s.batched
    && b.state == Partial && b.failed != []
    && FailedAreItems(b)
    && Covered(s.batched[batchID], s.devices, b)
  }

  /** A closed batch has left the queue, and every item of it was delivered. */
  ghost predicate ClosedOk(s: Sys, b: BatchValue) {
    && b.id in s.batched && b.id !in s.queue
    && b.state == Done && b.retryRemaining == 0
    && AllDelivered(s.batched[b.id], s.devices, b)
  }

  /** The log of one batch: its id was handed out, and its ops were issued. */
  ghost predicate LoggedOk(s: Sys, batchID: string) {
    batchID in s.batched ==> IsID(batchID, s.seqNo) && AreIssued(s.batched[batchID], s.devices)
  }

  ghost predicate LogsOk(s: Sys) {
    && (forall batchID :: LoggedOk(s, batchID))
    && (forall a, b :: a in s.batched && b in s.batched && a != b ==> Apart(s.batched[a], s.batched[b]))
  }

  ghost predicate SysOk(s: Sys) {
    && LogsOk(s)
    && (forall batchID :: batchID in s.queue ==> QueuedOk(s, batchID))
    && (forall k :: 0 <= k < |s.closed| ==> ClosedOk(s, s.closed[k]))
  }

  lemma CoveredStays(ops: seq<DesiredOp>, f: Fleet, after: Fleet, b: BatchValue)
    requires Covered(ops, f, b) && Grew(f, after)
    ensures Covered(ops, after, b)
  {
    forall i | 0 <= i < |b.items| ensures Tracked(ops, after, b, b.items[i]) {
      assert Tracked(ops, f, b, b.items[i]);
      if Delivered(ops, f, b.items[i]) {
        DeliveredStays(ops, [], f, after, b.items[i]);
        assert ops + [] == ops;
      }
    }
  }

  lemma AllDeliveredStays(ops: seq<DesiredOp>, f: Fleet, after: Fleet, b: BatchValue)
    requires AllDelivered(ops, f, b) && Grew(f, after)
    ensures AllDelivered(ops, after, b)
  {
    forall i | 0 <= i < |b.items| ensures Delivered(ops, after, b.items[i]) {
      DeliveredStays(ops, [], f, after, b.items[i]);
      assert ops + [] == ops;
    }
  }

  lemma AllDeliveredOf(ops: seq<DesiredOp>, f: Fleet, b: BatchValue)
    requires AllDelivered(ops, f, b)
    ensures AllDelivered(ops, f, Closed(b))
  {
    forall i | 0 <= i < |b.items| ensures Delivered(ops, f, Closed(b).items[i]) {
      assert Delivered(ops, f, b.items[i]);
    }
  }

  // ---- Other batches stay as they are ----

  /** Only batch `batchID` changes: new ops may join its log, devices only receive more. */
  ghost predicate OthersUntouched(s: Sys, after: Sys, batchID: string, ops: seq<DesiredOp>) {
    && Grew(s.devices, after.devices)
    && after.batched == s.batched[batchID := OpsOf(s.batched, batchID) + ops]
    && AreNew(ops, s.devices) && AreIssued(ops, after.devices)
    && after.seqNo >= s.seqNo && IsID(batchID, after.seqNo)
    && (forall other :: other != batchID ==> (other in after.queue <==> other in s.queue))
    && (forall other :: other != batchID && other in after.queue && other in s.queue ==>
          after.queue[other] == s.queue[other])
    && (batchID in s.queue || batchID !in s.batched)
  }

  lemma IDsStay(batchID: string, seqNo: nat, after: nat)
    requires IsID(batchID, seqNo) && seqNo <= after
    ensures IsID(batchID, after)
  {
  }

  lemma LogsStay(s: Sys, after: Sys, batchID: string, ops: seq<DesiredOp>)
    requires SysOk(s) && OthersUntouched(s, after, batchID, ops)
    ensures LogsOk(after)
  {
    forall other ensures LoggedOk(after, other) {
      assert LoggedOk(s, other);
      if other in s.batched {
        IssuedStays(s.batched[other], s.devices, after.devices);
        IDsStay(other, s.seqNo, after.seqNo);
      }
    }
    forall a, b | a in after.batched && b in after.batched && a != b ensures Apart(after.batched[a], after.batched[b]) {
      assert LoggedOk(s, a) && LoggedOk(s, b);
      if a in s.batched {
        NewOpsAreApart(s.batched[a], ops, s.devices);
      }
      if b in s.batched {
        NewOpsAreApart(s.batched[b], ops, s.devices);
      }
    }
  }

  lemma OthersStay(s: Sys, after: Sys, batchID: string, ops: seq<DesiredOp>)
    requires SysOk(s) && OthersUntouched(s, after, batchID, ops)
    ensures forall other :: other != batchID && other in after.queue ==> QueuedOk(after, other)
    ensures forall k :: 0 <= k < |s.closed| ==> ClosedOk(after, s.closed[k])
  {
    forall other | other != batchID && other in after.queue ensures QueuedOk(after, other) {
      assert QueuedOk(s, other);
      CoveredStays(s.batched[other], s.devices, after.devices, s.queue[other]);
    }
    forall k | 0 <= k < |s.closed| ensures ClosedOk(after, s.closed[k]) {
      ClosedStays(s, after, batchID, ops, s.closed[k]);
    }
  }

  lemma ClosedStays(s: Sys, after: Sys, batchID: string, ops: seq<DesiredOp>, b: BatchValue)
    requires OthersUntouched(s, after, batchID, ops) && ClosedOk(s, b)
    ensures ClosedOk(after, b)
  {
    AllDeliveredStays(s.batched[b.id], s.devices, after.devices, b);
  }

  // ---- First passes ----

  /** The first pass over a batch: what it marks failed are items, the rest is delivered. */
  lemma FirstPass(f: Fleet, items: seq<BatchItem>, batchID: string, now: int)
    ensures var b := NewBatch(batchID, items);
            var (after, progress) := Pass(f, items, "batch", b, now);
            var ops := PassOps(f, items, "batch", b, now);
            && Grew(f, after) && AreIssued(ops, after) && AreNew(ops, f)
            && progress.id == batchID && progress.items == items
            && FailedAreItems(progress) && Covered(ops, after, progress)
            && progress.state == (if progress.failed == [] then Pending else Partial)
            && (progress.failed == [] ==> AllDelivered(ops, after, progress))
  {
    hide Pass, PassOps, Tracked;
    var b := NewBatch(batchID, items);
    PassGrows(f, items, "batch", b, now);
    PassOpsAreIssued(f, items, "batch", b, now);
    PassOnBatch(f, items, "batch", b, now);
    var (after, progress) := Pass(f, items, "batch", b, now);
    var ops := PassOps(f, items, "batch", b, now);
    forall i | 0 <= i < |items|
      ensures Tracked(ops, after, progress, items[i])
      ensures progress.failed == [] ==> Delivered(ops, after, items[i])
    {
      PassTracks(f, items, "batch", b, now, i);
    }
  }

  lemma MarkFailedGrows(f: Fleet, failed: seq<string>, now: int)
    ensures Grew(f, MarkFailed(f, failed, now))
  {
  }

  /** The next id is neither queued, nor closed, nor logged. */
  lemma NewBatchIsNew(s: Sys)
    requires SysOk(s)
    ensures BatchID(s.seqNo + 1) !in s.batched && BatchID(s.seqNo + 1) !in s.queue
    ensures forall k :: 0 <= k < |s.closed| ==> s.closed[k].id != BatchID(s.seqNo + 1)
  {
    NewIDIsFresh(s.seqNo);
    assert LoggedOk(s, BatchID(s.seqNo + 1));
    forall other | other in s.queue ensures other in s.batched {
      assert QueuedOk(s, other);
    }
    forall k | 0 <= k < |s.closed| ensures s.closed[k].id in s.batched {
      assert ClosedOk(s, s.closed[k]);
    }
  }

  /** A batch that starts with these ops leaves the others alone. */
  lemma BegunUntouched(s: Sys, after: Sys, batchID: string, ops: seq<DesiredOp>)
    requires SysOk(s) && batchID == BatchID(s.seqNo + 1)
    requires after.seqNo == s.seqNo + 1 && after.batched == s.batched[batchID := ops]
    requires Grew(s.devices, after.devices) && AreNew(ops, s.devices) && AreIssued(ops, after.devices)
    requires forall other :: other != batchID ==> (other in after.queue <==> other in s.queue)
    requires forall other :: other != batchID && other in after.queue && other in s.queue ==>
               after.queue[other] == s.queue[other]
    ensures OthersUntouched(s, after, batchID, ops)
  {
    NewBatchIsNew(s);
    NewIDIsFresh(s.seqNo);
    assert OpsOf(s.batched, batchID) + ops == ops;
  }

  lemma EnqueueKeepsOk(s: Sys, after: Sys, b: BatchValue, ops: seq<DesiredOp>)
    requires SysOk(s) && OthersUntouched(s, after, b.id, ops)
    requires after.closed == s.closed && after.queue == s.queue[b.id := b]
    requires b.state == Partial && b.failed != [] && FailedAreItems(b)
    requires Covered(after.batched[b.id], after.devices, b)
    ensures SysOk(after)
  {
    hide OthersUntouched, Covered, FailedAreItems, LogsOk, ClosedOk;
    LogsStay(s, after, b.id, ops);
    OthersStay(s, after, b.id, ops);
    assert b.id in after.batched by {
      UntouchedLogs(s, after, b.id, ops);
    }
    assert QueuedOk(after, b.id);
  }

  lemma UntouchedLogs(s: Sys, after: Sys, batchID: string, ops: seq<DesiredOp>)
    requires OthersUntouched(s, after, batchID, ops)
    ensures batchID in after.batched
  {
  }

  lemma FinishKeepsOk(s: Sys, after: Sys, b: BatchValue, ops: seq<DesiredOp>)
    requires SysOk(s) && OthersUntouched(s, after, b.id, ops)
    requires after.closed == s.closed + [Closed(b)] && b.id !in after.queue
    requires AllDelivered(after.batched[b.id], after.devices, b)
    ensures SysOk(after)
  {
    hide OthersUntouched, AllDelivered, LogsOk, QueuedOk;
    LogsStay(s, after, b.id, ops);
    OthersStay(s, after, b.id, ops);
    UntouchedLogs(s, after, b.id, ops);
    AllDeliveredOf(after.batched[b.id], after.devices, b);
    assert ClosedOk(after, Closed(b));
  }

  lemma EndStartKeepsOk(s: Sys, devices: Fleet, b: BatchValue, ops: seq<DesiredOp>, now: int)
    requires SysOk(s) && b.id == BatchID(s.seqNo + 1) && Grew(s.devices, devices)
    requires AreNew(ops, s.devices) && AreIssued(ops, devices)
    requires FailedAreItems(b) && Covered(ops, devices, b)
    requires b.state == (if b.failed == [] then Pending else Partial)
    requires b.failed == [] ==> AllDelivered(ops, devices, b)
    ensures SysOk(EndStart(s, devices, b, ops, now))
  {
    hide SysOk, Grew, AreNew, AreIssued, FailedAreItems, Covered, AllDelivered, MarkFailed;
    var after := EndStart(s, devices, b, ops, now);
    NewBatchIsNew(s);
    if b.failed == [] {
      BegunUntouched(s, after, b.id, ops);
      FinishKeepsOk(s, after, b, ops);
    } else {
      MarkFailedGrows(devices, b.failed, now);
      GrewTwice(s.devices, devices, after.devices);
      CoveredStays(ops, devices, after.devices, b);
      IssuedStays(ops, devices, after.devices);
      BegunUntouched(s, after, b.id, ops);
      EnqueueKeepsOk(s, after, b, ops);
    }
  }

  lemma StartKeepsOk(s: Sys, items: seq<BatchItem>, now: int)
    requires SysOk(s)
    ensures SysOk(StartBatch(s, items, now))
  {
    hide SysOk, Pass, PassOps, Grew, AreNew, AreIssued, FailedAreItems, Covered, AllDelivered, EndStart;
    var batchID := BatchID(s.seqNo + 1);
    var b := NewBatch(batchID, items);
    var (devices, progress) := Pass(s.devices, items, "batch", b, now);
    FirstPass(s.devices, items, batchID, now);
    EndStartKeepsOk(s, devices, progress, PassOps(s.devices, items, "batch", b, now), now);
  }

  // ---- Retries ----

  /** A retry covers every item it may still have to deliver, so the failed
      devices stay the same, and when nothing fails again all is delivered. */
  lemma RetryPass(log: seq<DesiredOp>, f: Fleet, b: BatchValue, now: int)
    requires Covered(log, f, b) && FailedAreItems(b)
    ensures var items := Outstanding(b.items, b.failed);
            var (after, progress) := Pass(f, items, "batch-retry", b, now);
            var ops := PassOps(f, items, "batch-retry", b, now);
            && Grew(f, after) && AreIssued(ops, after) && AreNew(ops, f)
            && progress.id == b.id && progress.items == b.items
            && b.failed <= progress.failed
            && (forall id :: id in progress.failed <==> id in b.failed)
            && (b.state == Partial ==> progress.state == Partial)
            && FailedAreItems(progress)
            && Covered(log + ops, after, progress)
            && (|progress.failed| == |b.failed| ==> AllDelivered(log + ops, after, progress))
  {
    hide Pass, PassOps, Tracked, Delivered;
    var items := Outstanding(b.items, b.failed);
    var (after, progress) := Pass(f, items, "batch-retry", b, now);
    var ops := PassOps(f, items, "batch-retry", b, now);
    PassGrows(f, items, "batch-retry", b, now);
    PassOpsAreIssued(f, items, "batch-retry", b, now);
    PassOnBatch(f, items, "batch-retry", b, now);
    forall id ensures id in progress.failed <==> id in b.failed {
      OutstandingCovers(b, id);
    }
    forall i | 0 <= i < |b.items|
      ensures Tracked(log + ops, after, progress, b.items[i])
      ensures |progress.failed| == |b.failed| ==> Delivered(log + ops, after, b.items[i])
    {
      RetryTracks(log, f, b, now, i);
    }
  }

  lemma MoreOps(ops: seq<DesiredOp>, log: seq<DesiredOp>, f: Fleet, b: BatchValue, item: BatchItem)
    ensures Delivered(ops, f, item) ==> Delivered(log + ops, f, item)
    ensures Tracked(ops, f, b, item) ==> Tracked(log + ops, f, b, item)
  {
    if Delivered(ops, f, item) {
      var sent := f[item.deviceID].sent;
      var k :| 0 <= k < |sent| && sent[k] in ops && sent[k].deviceID == item.deviceID && sent[k].props == item.props;
      assert sent[k] in log + ops;
    }
  }

  lemma RetryTracks(log: seq<DesiredOp>, f: Fleet, b: BatchValue, now: int, i: nat)
    requires Covered(log, f, b) && i < |b.items|
    ensures var items := Outstanding(b.items, b.failed);
            var (after, progress) := Pass(f, items, "batch-retry", b, now);
            var ops := log + PassOps(f, items, "batch-retry", b, now);
            && Tracked(ops, after, progress, b.items[i])
            && (|progress.failed| == |b.failed| ==> Delivered(ops, after, b.items[i]))
  {
    hide Pass, PassOps, Delivered;
    var items, item := Outstanding(b.items, b.failed), b.items[i];
    var (after, progress) := Pass(f, items, "batch-retry", b, now);
    var ops := PassOps(f, items, "batch-retry", b, now);
    assert Tracked(log, f, b, item);
    if item.deviceID in b.failed {
      var j :| 0 <= j < |items| && items[j] == item;
      PassTracks(f, items, "batch-retry", b, now, j);
      MoreOps(ops, log, after, progress, item);
    } else {
      PassGrows(f, items, "batch-retry", b, now);
      PassLists(f, items, "batch-retry", b, now);
      DeliveredStays(log, ops, f, after, item);
    }
  }

  lemma EndRetryKeepsOk(s: Sys, devices: Fleet, b: BatchValue, progress: BatchValue, ops: seq<DesiredOp>, now: int)
    requires SysOk(s) && b.id in s.queue && b == s.queue[b.id] && Grew(s.devices, devices)
    requires AreNew(ops, s.devices) && AreIssued(ops, devices)
    requires progress.id == b.id && progress.state == Partial && b.failed <= progress.failed
    requires FailedAreItems(progress) && Covered(OpsOf(s.batched, b.id) + ops, devices, progress)
    requires |progress.failed| == |b.failed| ==> AllDelivered(OpsOf(s.batched, b.id) + ops, devices, progress)
    ensures SysOk(EndRetry(Retried(s, b.id, ops), devices, b, progress, now))
  {
    hide Grew, AreNew, AreIssued, FailedAreItems, Covered, AllDelivered, MarkFailed;
    var after := EndRetry(Retried(s, b.id, ops), devices, b, progress, now);
    var log := OpsOf(s.batched, b.id) + ops;
    assert QueuedOk(s, b.id) && LoggedOk(s, b.id);
    if |progress.failed| == |b.failed| {
      assert OthersUntouched(s, after, b.id, ops);
      FinishKeepsOk(s, after, progress, ops);
    } else {
      MarkFailedGrows(devices, progress.failed, now);
      GrewTwice(s.devices, devices, after.devices);
      CoveredStays(log, devices, after.devices, progress);
      IssuedStays(ops, devices, after.devices);
      assert OthersUntouched(s, after, b.id, ops);
      EnqueueKeepsOk(s, after, progress, ops);
    }
  }

  /** A queued batch always has something to retry. */
  lemma QueuedHasOutstanding(b: BatchValue)
    requires FailedAreItems(b) && b.failed != []
    ensures Outstanding(b.items, b.failed) != []
  {
    OutstandingCovers(b, b.failed[0]);
  }

  lemma RetryKeepsOk(s: Sys, batchID: string, now: int)
    requires SysOk(s)
    ensures SysOk(RetryBatch(s, batchID, now))
  {
    hide Pass, PassOps, Grew, AreNew, AreIssued, Covered, AllDelivered, EndRetry, Retried;
    if batchID in s.queue {
      assert QueuedOk(s, batchID);
      var b := s.queue[batchID];
      QueuedHasOutstanding(b);
      RetryPass(s.batched[batchID], s.devices, b, now);
      var items := Outstanding(b.items, b.failed);
      var (devices, progress) := Pass(s.devices, items, "batch-retry", b, now);
      EndRetryKeepsOk(s, devices, b, progress, PassOps(s.devices, items, "batch-retry", b, now), now);
    }
  }

  // ---- Every run ----

  lemma OtherCallsGrow(s: Sys, call: Call)
    requires !call.ApplyBatch? && !call.RetryOutstanding?
    ensures Grew(s.devices, CallStep(s, call).devices)
    ensures CallStep(s, call) == s.(devices := CallStep(s, call).devices)
  {
    forall id ensures GrewOn(s.devices, CallStep(s, call).devices, id) {
      var effect := Effect(s, call, id);
      if effect != [] {
        StepGrows(s.devices[id], id, effect[0]);
      }
    }
  }

  lemma GrowthKeepsOk(s: Sys, devices: Fleet)
    requires SysOk(s) && Grew(s.devices, devices)
    ensures SysOk(s.(devices := devices))
  {
    var after := s.(devices := devices);
    forall batchID ensures LoggedOk(after, batchID) {
      assert LoggedOk(s, batchID);
      if batchID in s.batched {
        IssuedStays(s.batched[batchID], s.devices, devices);
      }
    }
    forall batchID | batchID in s.queue ensures QueuedOk(after, batchID) {
      assert QueuedOk(s, batchID);
      CoveredStays(s.batched[batchID], s.devices, devices, s.queue[batchID]);
    }
    forall k | 0 <= k < |s.closed| ensures ClosedOk(after, s.closed[k]) {
      assert ClosedOk(s, s.closed[k]);
      AllDeliveredStays(s.batched[s.closed[k].id], s.devices, devices, s.closed[k]);
    }
  }

  lemma CallKeepsOk(s: Sys, call: Call)
    requires SysOk(s)
    ensures SysOk(CallStep(s, call))
  {
    match call
    case ApplyBatch(items, now) => StartKeepsOk(s, items, now);
    case RetryOutstanding(batchID, now) => RetryKeepsOk(s, batchID, now);
    case _ =>
      OtherCallsGrow(s, call);
      GrowthKeepsOk(s, CallStep(s, call).devices);
  }

  lemma {:induction false} RunIsSound(calls: seq<Call>)
    ensures SysOk(RunCalls(calls))
  {
    if calls != [] {
      RunIsSound(calls[..|calls| - 1]);
      CallKeepsOk(RunCalls(calls[..|calls| - 1]), calls[|calls| - 1]);
    }
  }

  /** Batch success is sound. Whenever a batch has left the service as done,
      each of its items reached its device by an op issued for this very batch. */
  lemma DoneMeansDelivered(calls: seq<Call>, k: nat, i: nat)
    requires k < |RunCalls(calls).closed| && i < |RunCalls(calls).closed[k].items|
    ensures var s := RunCalls(calls);
            var b := s.closed[k];
            && b.state == Done && b.id !in s.queue && b.id in s.batched
            && Delivered(s.batched[b.id], s.devices, b.items[i])
  {
    RunIsSound(calls);
    assert ClosedOk(RunCalls(calls), RunCalls(calls).closed[k]);
  }

  /** The ops of a batch were issued by their devices, and no two batches share one. */
  lemma BatchOpsAreItsOwn(calls: seq<Call>, batchID: string)
    requires batchID in RunCalls(calls).batched
    ensures var s := RunCalls(calls);
            && AreIssued(s.batched[batchID], s.devices)
            && forall other :: other in s.batched && other != batchID ==> Apart(s.batched[batchID], s.batched[other])
  {
    RunIsSound(calls);
    assert LoggedOk(RunCalls(calls), batchID);
  }

  /** A queued batch is partial, has a failed device and something to retry, and
      every item's device is on the applied or the failed list. */
  lemma QueuedMeansPartial(calls: seq<Call>, batchID: string)
    requires batchID in RunCalls(calls).queue
    ensures var b := RunCalls(calls).queue[batchID];
            && b.state == Partial && b.failed != []
            && Outstanding(b.items, b.failed) != []
            && (forall i :: 0 <= i < |b.items| ==>
                  b.items[i].deviceID in b.applied || b.items[i].deviceID in b.failed)
  {
    RunIsSound(calls);
    var s := RunCalls(calls);
    assert QueuedOk(s, batchID);
    QueuedHasOutstanding(s.queue[batchID]);
    forall i | 0 <= i < |s.queue[batchID].items|
      ensures s.queue[batchID].items[i].deviceID in s.queue[batchID].applied ||
              s.queue[batchID].items[i].deviceID in s.queue[batchID].failed
    {
      assert Tracked(s.batched[batchID], s.devices, s.queue[batchID], s.queue[batchID].items[i]);
    }
  }

  ghost predicate SameRetrySet(a: BatchValue, b: BatchValue) {
    && a.items == b.items
    && (forall id :: id in a.failed <==> id in b.failed)
    && Outstanding(a.items, a.failed) == Outstanding(b.items, b.failed)
  }

  lemma {:induction false} OutstandingBySet(items: seq<BatchItem>, failed: seq<string>, other: seq<string>)
    requires forall id :: id in failed <==> id in other
    ensures Outstanding(items, failed) == Outstanding(items, other)
  {
    if items != [] {
      OutstandingBySet(items[..|items| - 1], failed, other);
    }
  }

  lemma RetryKeepsSet(s: Sys, batchID: string, now: int)
    requires SysOk(s) && batchID in s.queue && batchID in RetryBatch(s, batchID, now).queue
    ensures SameRetrySet(s.queue[batchID], RetryBatch(s, batchID, now).queue[batchID])
  {
    assert QueuedOk(s, batchID);
    var b := s.queue[batchID];
    QueuedHasOutstanding(b);
    RetryPass(s.batched[batchID], s.devices, b, now);
    OutstandingBySet(b.items, b.failed, RetryBatch(s, batchID, now).queue[batchID].failed);
  }

  /** A new batch, or the retry of another one, leaves this entry of the queue alone. */
  lemma StartKeepsEntry(s: Sys, items: seq<BatchItem>, now: int, batchID: string)
    requires SysOk(s) && batchID in s.batched
    ensures var after := StartBatch(s, items, now);
            && (batchID in after.queue <==> batchID in s.queue)
            && (batchID in s.queue ==> after.queue[batchID] == s.queue[batchID])
  {
    hide Pass, PassOps, MarkFailed, SysOk;
    NewBatchIsNew(s);
    PassOnBatch(s.devices, items, "batch", NewBatch(BatchID(s.seqNo + 1), items), now);
  }

  lemma RetryKeepsEntry(s: Sys, other: string, now: int, batchID: string)
    requires SysOk(s) && other != batchID
    ensures var after := RetryBatch(s, other, now);
            && (batchID in after.queue <==> batchID in s.queue)
            && (batchID in s.queue ==> after.queue[batchID] == s.queue[batchID])
  {
    if other in s.queue {
      assert QueuedOk(s, other);
      var b := s.queue[other];
      PassOnBatch(s.devices, Outstanding(b.items, b.failed), "batch-retry", b, now);
    }
  }

  lemma CallKeepsSet(s: Sys, call: Call, batchID: string)
    requires SysOk(s) && batchID in s.batched
    requires batchID in CallStep(s, call).queue
    ensures batchID in s.queue && SameRetrySet(s.queue[batchID], CallStep(s, call).queue[batchID])
  {
    match call
    case ApplyBatch(items, now) => StartKeepsEntry(s, items, now, batchID);
    case RetryOutstanding(other, now) =>
      if other == batchID {
        RetryKeepsSet(s, batchID, now);
      } else {
        RetryKeepsEntry(s, other, now, batchID);
      }
    case _ => OtherCallsGrow(s, call);
  }

  /** The retry set is stable. However often a queued batch is retried and
      whatever else happens, as long as it is queued its failed devices and its
      outstanding items stay the same; and once it has left it never comes back. */
  lemma {:induction false} RetrySetIsStable(calls: seq<Call>, more: seq<Call>, batchID: string)
    requires batchID in RunCalls(calls).queue
    ensures batchID in RunCalls(calls + more).batched
    ensures batchID in RunCalls(calls + more).queue ==>
              SameRetrySet(RunCalls(calls).queue[batchID], RunCalls(calls + more).queue[batchID])
    ensures batchID in RunCalls(calls + more).queue && more != [] ==>
              batchID in RunCalls(calls + more[..|more| - 1]).queue
  {
    hide CallStep;
    RunIsSound(calls);
    assert QueuedOk(RunCalls(calls), batchID);
    if more == [] {
      assert calls + more == calls;
    } else {
      hide RunCalls, CallStep, SysOk, Outstanding;
      var last := |more| - 1;
      var before := RunCalls(calls + more[..last]);
      RunExtends(calls, more);
      RetrySetIsStable(calls, more[..last], batchID);
      RunIsSound(calls + more[..last]);
      StartedOnly(before, more[last]);
      if batchID in CallStep(before, more[last]).queue {
        CallKeepsSet(before, more[last], batchID);
      }
    }
  }

  lemma RunExtends(calls: seq<Call>, more: seq<Call>)
    requires more != []
    ensures RunCalls(calls + more) == CallStep(RunCalls(calls + more[..|more| - 1]), more[|more| - 1])
  {
    assert (calls + more)[..|calls + more| - 1] == calls + more[..|more| - 1];
  }

  lemma StartedOnly(s: Sys, call: Call)
    ensures s.batched.Keys <= CallStep(s, call).batched.Keys
  {
    match call
    case ApplyBatch(_, _) =>
    case RetryOutstanding(_, _) =>
    case _ => OtherCallsGrow(s, call);
  }

  // ---- The retry count ----

  lemma {:induction false} PassCounts(f: Fleet, items: seq<BatchItem>, source: string, b: BatchValue, now: int)
    requires b.retryRemaining >= |items|
    ensures var after := Pass(f, items, source, b, now).1;
            && |after.applied| + |after.failed| == |b.applied| + |b.failed| + |items|
            && after.retryRemaining == b.retryRemaining - (|after.applied| - |b.applied|)
  {
    if items != [] {
      PassCounts(f, items[..|items| - 1], source, b, now);
      PassLists(f, items[..|items| - 1], source, b, now);
    }
  }

  /** When a first pass leaves a batch partial, its retry count is the number of failures. */
  lemma RetryRemainingCountsFailures(s: Sys, items: seq<BatchItem>, now: int)
    requires SysOk(s)
    ensures var batchID, after := BatchID(s.seqNo + 1), StartBatch(s, items, now);
            batchID in after.queue ==> after.queue[batchID].retryRemaining == |after.queue[batchID].failed|
  {
    hide Pass, PassOps, MarkFailed, SysOk;
    var batchID := BatchID(s.seqNo + 1);
    NewBatchIsNew(s);
    PassOnBatch(s.devices, items, "batch", NewBatch(batchID, items), now);
    PassCounts(s.devices, items, "batch", NewBatch(batchID, items), now);
  }
}
