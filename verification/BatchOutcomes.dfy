/** When a batch succeeds: which items fail, and which retries close it. */
module BatchOutcomes {
  import opened Model
  import opened Shadow
  import opened Machine
  import opened Batches
  import opened System
  import opened BatchGuarantees

  /** The devices of the items that can be reached, or of those that cannot, in item order. */
  ghost function Targets(f: Fleet, items: seq<BatchItem>, reachable: bool): (ids: seq<string>)
    ensures forall id :: id in ids <==> IsConnected(f[id]) == reachable && exists item :: item in items && item.deviceID == id
  {
    if items == [] then []
    else
      var rest, last := Targets(f, items[..|items| - 1], reachable), items[|items| - 1];
      assert items == items[..|items| - 1] + [last];
      if IsConnected(f[last.deviceID]) == reachable then rest + [last.deviceID] else rest
  }

  /** A pass reaches exactly the reachable devices, whatever it writes to them,
      and leaves connectivity as it was. */
  lemma {:induction false} PassSplits(f: Fleet, items: seq<BatchItem>, source: string, b: BatchValue, now: int)
    ensures var (after, progress) := Pass(f, items, source, b, now);
            && progress.applied == b.applied + Targets(f, items, true)
            && progress.failed == b.failed + Targets(f, items, false)
            && forall id :: IsConnected(after[id]) == IsConnected(f[id])
  {
    if items != [] {
      var last := items[|items| - 1];
      PassSplits(f, items[..|items| - 1], source, b, now);
      var before := Pass(f, items[..|items| - 1], source, b, now).0;
      WriteReaches(before[last.deviceID], last.deviceID, last.props, source, now);
    }
  }

  lemma WriteReaches(d: Device, id: string, props: Props, source: string, now: int)
    ensures Write(d, id, props, source, now).1 == IsConnected(d)
    ensures IsConnected(Write(d, id, props, source, now).0) == IsConnected(d)
  {
  }

  lemma SomeUnreachable(f: Fleet, items: seq<BatchItem>)
    ensures Targets(f, items, false) != [] <==> exists i :: 0 <= i < |items| && !IsConnected(f[items[i].deviceID])
  {
    var ids := Targets(f, items, false);
    if ids != [] {
      assert ids[0] in ids;
      var item :| item in items && item.deviceID == ids[0];
      var i :| 0 <= i < |items| && items[i] == item;
    }
    if i :| 0 <= i < |items| && !IsConnected(f[items[i].deviceID]) {
      assert items[i] in items;
      assert items[i].deviceID in ids;
    }
  }

  /** A new batch is queued exactly when some item's device cannot be reached;
      then its failed list is those devices, once for each such item, and its
      applied list the others. */
  lemma StartQueuesUnreachable(s: Sys, items: seq<BatchItem>, now: int)
    requires SysOk(s)
    ensures var after, id := StartBatch(s, items, now), BatchID(s.seqNo + 1);
            && (id in after.queue <==> exists i :: 0 <= i < |items| && !IsConnected(s.devices[items[i].deviceID]))
            && (id in after.queue ==>
                  && after.queue[id].failed == Targets(s.devices, items, false)
                  && after.queue[id].applied == Targets(s.devices, items, true))
  {
    hide StartBatch, Targets, SysOk, IsConnected, BatchID;
    NewBatchIsNew(s);
    SomeUnreachable(s.devices, items);
    StartQueuesTargets(s, items, now);
  }

  lemma StartQueuesTargets(s: Sys, items: seq<BatchItem>, now: int)
    requires BatchID(s.seqNo + 1) !in s.queue
    ensures var after, id := StartBatch(s, items, now), BatchID(s.seqNo + 1);
            && (id in after.queue <==> Targets(s.devices, items, false) != [])
            && (id in after.queue ==>
                  && after.queue[id].failed == Targets(s.devices, items, false)
                  && after.queue[id].applied == Targets(s.devices, items, true))
  {
    hide Pass, PassOps, Targets, EndStart, BatchID;
    var b := NewBatch(BatchID(s.seqNo + 1), items);
    var (devices, progress) := Pass(s.devices, items, "batch", b, now);
    FirstPassSplits(s.devices, items, b, now);
    EndStartQueues(s, devices, progress, PassOps(s.devices, items, "batch", b, now), now);
  }

  lemma FirstPassSplits(f: Fleet, items: seq<BatchItem>, b: BatchValue, now: int)
    requires b.applied == b.failed == [] && b.state == Pending
    ensures var progress := Pass(f, items, "batch", b, now).1;
            && progress.applied == Targets(f, items, true) && progress.failed == Targets(f, items, false)
            && progress.id == b.id && (progress.state == Partial <==> progress.failed != [])
  {
    hide Pass, Targets;
    PassSplits(f, items, "batch", b, now);
    PassOnBatch(f, items, "batch", b, now);
  }

  lemma EndStartQueues(s: Sys, devices: Fleet, batch: BatchValue, ops: seq<DesiredOp>, now: int)
    requires batch.id !in s.queue
    ensures var queue := EndStart(s, devices, batch, ops, now).queue;
            (batch.id in queue <==> batch.state == Partial) && (batch.id in queue ==> queue[batch.id] == batch)
  {
  }

  lemma SomeFailedUnreachable(f: Fleet, b: BatchValue)
    requires FailedAreItems(b)
    ensures Targets(f, Outstanding(b.items, b.failed), false) != []
            <==> exists id :: id in b.failed && !IsConnected(f[id])
  {
    var items := Outstanding(b.items, b.failed);
    SomeUnreachable(f, items);
    if i :| 0 <= i < |items| && !IsConnected(f[items[i].deviceID]) {
      assert items[i] in items;
    }
    if id :| id in b.failed && !IsConnected(f[id]) {
      OutstandingCovers(b, id);
      PropsForItems(items, id);
      var item :| item in items && item.deviceID == id;
      var i :| 0 <= i < |items| && items[i] == item;
    }
  }

  /** A retry closes its batch exactly when every device it has marked failed can
      be reached; otherwise the unreachable ones are marked once more. */
  lemma RetryClosesReachable(s: Sys, batchID: string, now: int)
    requires SysOk(s) && batchID in s.queue
    ensures var b, after := s.queue[batchID], RetryBatch(s, batchID, now);
            && (batchID !in after.queue <==> forall id :: id in b.failed ==> IsConnected(s.devices[id]))
            && (batchID in after.queue ==>
                  after.queue[batchID].failed == b.failed + Targets(s.devices, Outstanding(b.items, b.failed), false))
  {
    hide Pass, PassOps, Targets, MarkFailed, IsConnected, Outstanding, Covered;
    assert QueuedOk(s, batchID);
    var b := s.queue[batchID];
    var items := Outstanding(b.items, b.failed);
    var (devices, progress) := Pass(s.devices, items, "batch-retry", b, now);
    QueuedHasOutstanding(b);
    SomeFailedUnreachable(s.devices, b);
    assert progress.failed == b.failed + Targets(s.devices, items, false) by {
      PassSplits(s.devices, items, "batch-retry", b, now);
    }
    assert progress.id == b.id by {
      PassOnBatch(s.devices, items, "batch-retry", b, now);
    }
  }

  // ---- Order ----

  /** What is outstanding for a device are its items, all of them and in their order, if it is
      marked failed, and none otherwise. */
  lemma {:induction false} OutstandingForDevice(items: seq<BatchItem>, failed: seq<string>, id: string)
    ensures PropsFor(Outstanding(items, failed), id) == if id in failed then PropsFor(items, id) else []
  {
    if items != [] {
      var front, last := items[..|items| - 1], items[|items| - 1];
      OutstandingForDevice(front, failed, id);
      var rest := Outstanding(front, failed);
      assert (rest + [last])[..|rest|] == rest;
    }
  }

  /** The places of the items that are outstanding. */
  function OutstandingAt(items: seq<BatchItem>, failed: seq<string>): (places: seq<nat>)
    ensures |places| == |Outstanding(items, failed)|
    ensures forall i :: 0 <= i < |places| ==> places[i] < |items|
  {
    if items == [] then []
    else
      var last := |items| - 1;
      var rest := OutstandingAt(items[..last], failed);
      if items[last].deviceID in failed then rest + [last] else rest
  }

  ghost predicate InOrder(places: seq<nat>, out: seq<BatchItem>, items: seq<BatchItem>, failed: seq<string>) {
    && |places| == |out|
    && (forall i, j :: 0 <= i < j < |places| ==> places[i] < places[j])
    && (forall i :: 0 <= i < |places| ==> places[i] < |items| && out[i] == items[places[i]])
    && (forall k: nat :: k in places <==> k < |items| && items[k].deviceID in failed)
  }

  lemma InOrderSnoc(places: seq<nat>, out: seq<BatchItem>, items: seq<BatchItem>, item: BatchItem, failed: seq<string>)
    requires InOrder(places, out, items, failed)
    ensures item.deviceID !in failed ==> InOrder(places, out, items + [item], failed)
    ensures item.deviceID in failed ==> InOrder(places + [|items|], out + [item], items + [item], failed)
  {
    var all, more := items + [item], places + [|items|];
    assert all[|items|] == item && forall k :: 0 <= k < |items| ==> all[k] == items[k];
    assert forall i :: 0 <= i < |places| ==> places[i] in places && more[i] == places[i];
    forall k: nat ensures k in more <==> k in places || k == |items| {
    }
  }

  /** The outstanding items are those of the failed devices, each once and in item order. */
  lemma {:induction false} OutstandingKeepsOrder(items: seq<BatchItem>, failed: seq<string>)
    ensures InOrder(OutstandingAt(items, failed), Outstanding(items, failed), items, failed)
  {
    if items != [] {
      hide InOrder;
      var front, last := items[..|items| - 1], items[|items| - 1];
      OutstandingKeepsOrder(front, failed);
      InOrderSnoc(OutstandingAt(front, failed), Outstanding(front, failed), front, last, failed);
      assert front + [last] == items;
    } else {
      assert InOrder([], [], items, failed);
    }
  }

  /** Item `k` is the last one for its device. */
  predicate IsLastItem(items: seq<BatchItem>, k: nat, id: string)
    requires k < |items|
  {
    items[k].deviceID == id && forall j :: k < j < |items| ==> items[j].deviceID != id
  }

  /** Where a write to a device ends: its op is the last one issued, the store holds its
      props unless the shadow is tombstoned, and a connected device received it last. */
  predicate EndsWith(before: Device, after: Device, op: DesiredOp) {
    && after.issued != [] && after.issued[|after.issued| - 1] == op && op.version == after.counter
    && after.shadow.tombstone == before.shadow.tombstone
    && (before.shadow.tombstone.None? ==> DesiredOf(after.shadow) == op.props)
    && IsConnected(after) == IsConnected(before)
    && (IsConnected(before) ==> after.sent != [] && after.sent[|after.sent| - 1] == op)
  }

  lemma WriteEnds(d: Device, id: string, props: Props, source: string, now: int)
    requires Ok(d)
    ensures var after := Write(d, id, props, source, now).0;
            EndsWith(d, after, DesiredOp(id, props, d.counter + 1, source))
  {
  }

  /** A pass leaves each device of the batch with the last item it has for it. */
  lemma {:induction false} PassEndsWithLastItem(f: Fleet, items: seq<BatchItem>, source: string, b: BatchValue, now: int, k: nat, id: string)
    requires k < |items| && IsLastItem(items, k, id) && forall other :: Ok(f[other])
    ensures var after := Pass(f, items, source, b, now).0;
            && (forall other :: Ok(after[other]))
            && EndsWith(f[id], after[id], DesiredOp(id, items[k].props, after[id].counter, source))
  {
    hide Ok, Write, EndsWith;
    var last := |items| - 1;
    var (before, progress) := Pass(f, items[..last], source, b, now);
    var item := items[last];
    PassKeepsOk(f, items, source, b, now);
    if k == last {
      PassKeepsOk(f, items[..last], source, b, now);
      WriteEnds(before[id], id, item.props, source, now);
      PassKeepsBasics(f, items[..last], source, b, now, id);
      EndsLater(f[id], before[id], Write(before[id], id, item.props, source, now).0,
                DesiredOp(id, item.props, before[id].counter + 1, source));
    } else {
      PassEndsWithLastItem(f, items[..last], source, b, now, k, id);
      assert item.deviceID != id;
    }
  }

  lemma EndsLater(before: Device, middle: Device, after: Device, op: DesiredOp)
    requires EndsWith(middle, after, op)
    requires middle.shadow.tombstone == before.shadow.tombstone && IsConnected(middle) == IsConnected(before)
    ensures EndsWith(before, after, op)
    ensures op.version == after.counter
  {
  }

  lemma {:induction false} PassKeepsOk(f: Fleet, items: seq<BatchItem>, source: string, b: BatchValue, now: int)
    requires forall id :: Ok(f[id])
    ensures forall id :: Ok(Pass(f, items, source, b, now).0[id])
  {
    if items != [] {
      hide Ok, Write;
      var last := |items| - 1;
      PassKeepsOk(f, items[..last], source, b, now);
      var before, item := Pass(f, items[..last], source, b, now).0, items[last];
      WriteKeepsOk(before[item.deviceID], item.deviceID, item.props, source, now);
    }
  }

  lemma WriteKeepsTombstone(d: Device, id: string, props: Props, source: string, now: int)
    ensures Write(d, id, props, source, now).0.shadow.tombstone == d.shadow.tombstone
  {
  }

  lemma {:induction false} PassKeepsBasics(f: Fleet, items: seq<BatchItem>, source: string, b: BatchValue, now: int, id: string)
    ensures var after := Pass(f, items, source, b, now).0;
            after[id].shadow.tombstone == f[id].shadow.tombstone && IsConnected(after[id]) == IsConnected(f[id])
  {
    if items != [] {
      hide Write, IsConnected;
      var last := |items| - 1;
      PassKeepsBasics(f, items[..last], source, b, now, id);
      var before, item := Pass(f, items[..last], source, b, now).0, items[last];
      WriteKeepsTombstone(before[item.deviceID], item.deviceID, item.props, source, now);
      WriteReaches(before[item.deviceID], item.deviceID, item.props, source, now);
    }
  }

  /** The last item for a device that is marked failed is the last outstanding one. */
  lemma {:induction false} LastOutstanding(items: seq<BatchItem>, failed: seq<string>, k: nat, id: string) returns (j: nat)
    requires k < |items| && IsLastItem(items, k, id) && id in failed
    ensures var out := Outstanding(items, failed);
            j < |out| && out[j] == items[k] && IsLastItem(out, j, id)
  {
    var front, last := items[..|items| - 1], items[|items| - 1];
    if k == |items| - 1 {
      j := |Outstanding(front, failed)|;
    } else {
      j := LastOutstanding(front, failed, k, id);
      assert last.deviceID != id;
    }
  }

  lemma {:induction false} HasLastItem(items: seq<BatchItem>, id: string) returns (k: nat)
    requires PropsFor(items, id) != []
    ensures k < |items| && IsLastItem(items, k, id)
  {
    k := |items| - 1;
    if items[k].deviceID != id {
      k := HasLastItem(items[..k], id);
    }
  }

  // ---- What batches and retries leave behind ----

  lemma DevicesAreOk(calls: seq<Call>)
    ensures forall id :: Ok(RunCalls(calls).devices[id])
  {
    hide RunCalls, Steps, Ok;
    forall id ensures Ok(RunCalls(calls).devices[id]) {
      CallsAreSteps(calls, id);
      RunIsOk(id, Steps(calls, id));
    }
  }

  lemma MarkedEndsWith(before: Device, after: Device, op: DesiredOp, now: int)
    requires EndsWith(before, after, op)
    ensures EndsWith(before, after.(shadow := WithState(after.shadow, Stale, now)), op)
  {
  }

  /** After any run of calls, a new batch leaves each of its devices with the last item it has for
      it: stored, and received by a connected device as the latest op. */
  lemma BatchEndsWithLastItem(calls: seq<Call>, items: seq<BatchItem>, now: int, k: nat, id: string)
    requires k < |items| && IsLastItem(items, k, id)
    ensures var d := RunCalls(calls).devices[id];
            var after := RunCalls(calls + [ApplyBatch(items, now)]).devices[id];
            EndsWith(d, after, DesiredOp(id, items[k].props, after.counter, "batch"))
  {
    hide Ok, EndsWith, Pass, PassOps, IsLastItem;
    var s := RunCalls(calls);
    var b := NewBatch(BatchID(s.seqNo + 1), items);
    var (devices, progress) := Pass(s.devices, items, "batch", b, now);
    assert (calls + [ApplyBatch(items, now)])[..|calls|] == calls;
    DevicesAreOk(calls);
    PassEndsWithLastItem(s.devices, items, "batch", b, now, k, id);
    MarkedEndsWith(s.devices[id], devices[id], DesiredOp(id, items[k].props, devices[id].counter, "batch"), now);
  }

  /** And a retry leaves each device marked as failed with the last item of the batch for it. */
  lemma RetryEndsWithLastItem(calls: seq<Call>, batchID: string, now: int, k: nat, id: string)
    requires batchID in RunCalls(calls).queue
    requires var b := RunCalls(calls).queue[batchID];
             id in b.failed && k < |b.items| && IsLastItem(b.items, k, id)
    ensures var s, after := RunCalls(calls), RunCalls(calls + [RetryOutstanding(batchID, now)]);
            EndsWith(s.devices[id], after.devices[id],
                     DesiredOp(id, s.queue[batchID].items[k].props, after.devices[id].counter, "batch-retry"))
  {
    hide Ok, EndsWith, Pass, PassOps, IsLastItem, Outstanding;
    var s := RunCalls(calls);
    var b := s.queue[batchID];
    var items := Outstanding(b.items, b.failed);
    var (devices, progress) := Pass(s.devices, items, "batch-retry", b, now);
    assert (calls + [RetryOutstanding(batchID, now)])[..|calls|] == calls;
    DevicesAreOk(calls);
    var j := LastOutstanding(b.items, b.failed, k, id);
    PassEndsWithLastItem(s.devices, items, "batch-retry", b, now, j, id);
    MarkedEndsWith(s.devices[id], devices[id], DesiredOp(id, b.items[k].props, devices[id].counter, "batch-retry"), now);
  }

  /** So when a retry closes its batch, every device that had failed has received the last
      item for it as its latest op, and that is what the store holds, unless it is tombstoned. */
  lemma ClosingRetryDelivers(calls: seq<Call>, batchID: string, now: int, id: string) returns (k: nat)
    requires batchID in RunCalls(calls).queue && id in RunCalls(calls).queue[batchID].failed
    requires batchID !in RunCalls(calls + [RetryOutstanding(batchID, now)]).queue
    ensures var b, d := RunCalls(calls).queue[batchID], RunCalls(calls + [RetryOutstanding(batchID, now)]).devices[id];
            && k < |b.items| && IsLastItem(b.items, k, id)
            && d.sent != [] && d.sent[|d.sent| - 1] == DesiredOp(id, b.items[k].props, d.counter, "batch-retry")
            && (d.shadow.tombstone.None? ==> DesiredOf(d.shadow) == b.items[k].props)
  {
    hide Ok, Pass, PassOps, IsLastItem, Outstanding, QueuedOk, SysOk, RetryBatch;
    var s := RunCalls(calls);
    assert (calls + [RetryOutstanding(batchID, now)])[..|calls|] == calls;
    RunIsSound(calls);
    QueuedHasItems(s, batchID);
    k := HasLastItem(s.queue[batchID].items, id);
    RetryClosesReachable(s, batchID, now);
    RetryEndsWithLastItem(calls, batchID, now, k, id);
  }

  lemma QueuedHasItems(s: Sys, batchID: string)
    requires SysOk(s) && batchID in s.queue
    ensures FailedAreItems(s.queue[batchID])
  {
    assert QueuedOk(s, batchID);
  }
}
