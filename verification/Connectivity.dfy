/** Registration, connectivity and the cache watermark of a device, over its runs. */
module Connectivity {
  import opened Model
  import opened Shadow
  import opened Handles
  import opened Replay
  import opened Machine
  import opened Guarantees

  // ---- Registration ----

  ghost predicate IsRegistered(steps: seq<Step>) {
    exists k :: 0 <= k < |steps| && steps[k].Register?
  }

  /** No step but a first registration or a change of connectivity touches the flag. */
  lemma StepKeepsFlag(d: Device, id: string, step: Step)
    requires !step.SetOnline? && (step.Register? ==> d.handle.Some?)
    ensures var after := Apply(d, id, step);
            (after.handle.Some? <==> d.handle.Some?) && IsConnected(after) == IsConnected(d)
  {
    match step
    case Writes(batch, source, partial, now) => WritesKeepFlag(d, id, batch, source, now);
    case Resume(now) => DeliverAllKeepsFlag(d, ResumeOps(d, id));
    case Reconcile(now) =>
      if d.handle.Some? {
        DeliverAllKeepsFlag(Drained(d), ReconcileOps(d, id));
      }
    case _ =>
  }

  lemma {:induction false} WritesKeepFlag(d: Device, id: string, batch: seq<Props>, source: string, now: int)
    ensures var after := WriteAll(d, id, batch, source, now);
            (after.handle.Some? <==> d.handle.Some?) && IsConnected(after) == IsConnected(d)
  {
    if batch != [] {
      WritesKeepFlag(d, id, batch[..|batch| - 1], source, now);
    }
  }

  lemma {:induction false} DeliverAllKeepsFlag(d: Device, ops: seq<DesiredOp>)
    ensures (DeliverAll(d, ops).handle.Some? <==> d.handle.Some?) && IsConnected(DeliverAll(d, ops)) == IsConnected(d)
    decreases |ops|
  {
    if ops != [] && Deliver(d, ops[0]).1 {
      DeliverAllKeepsFlag(Deliver(d, ops[0]).0, ops[1..]);
    }
  }

  /** A new device is connected, and has received nothing. */
  lemma NewDeviceIsConnected(d: Device, id: string)
    requires d.handle.None?
    ensures var after := Apply(d, id, Register);
            && IsConnected(after)
            && after.handle.value.lastDelivered == 0 && after.handle.value.cache == []
            && after.counter == d.counter && after.shadow == d.shadow
  {
  }

  lemma {:induction false} RegisteredInRun(id: string, steps: seq<Step>)
    ensures Run(id, steps).handle.Some? <==> IsRegistered(steps)
  {
    if steps != [] {
      var front, last := steps[..|steps| - 1], steps[|steps| - 1];
      RegisteredInRun(id, front);
      if last.Register? {
        assert steps[|steps| - 1].Register?;
      } else if !last.SetOnline? {
        StepKeepsFlag(Run(id, front), id, last);
      }
      RegisteredInFront(steps);
    }
  }

  lemma RegisteredInFront(steps: seq<Step>)
    requires steps != []
    ensures IsRegistered(steps) <==> IsRegistered(steps[..|steps| - 1]) || steps[|steps| - 1].Register?
  {
    var last := |steps| - 1;
    if k :| 0 <= k < last && steps[..last][k].Register? {
      assert steps[k].Register?;
    }
    if k :| 0 <= k < |steps| && steps[k].Register? {
      assert k < last ==> steps[..last][k].Register?;
    }
  }

  // ---- Connectivity ----

  /** Step `k` connects the device or keeps it so: its first registration, or being set online after that. */
  ghost predicate Connects(steps: seq<Step>, k: nat)
    requires k < |steps|
  {
    if IsRegistered(steps[..k]) then steps[k] == SetOnline(true) else steps[k].Register?
  }

  /** The device was connected by some step, and not set offline or online since. */
  ghost predicate StaysConnected(steps: seq<Step>) {
    exists k :: 0 <= k < |steps| && Connects(steps, k) && forall j :: k < j < |steps| ==> !steps[j].SetOnline?
  }

  /** Over every run, a device is connected exactly when it was registered and has not
      been set offline or online since, or was registered and was last set online. */
  lemma {:induction false} ConnectedByLastSetting(id: string, steps: seq<Step>)
    ensures IsConnected(Run(id, steps)) <==> StaysConnected(steps)
  {
    if steps != [] {
      var front, last := steps[..|steps| - 1], steps[|steps| - 1];
      var d := Run(id, front);
      ConnectedByLastSetting(id, front);
      RegisteredInRun(id, front);
      if last.SetOnline? {
        SetLast(steps);
      } else if last.Register? && d.handle.None? {
        NewDeviceIsConnected(d, id);
        assert Connects(steps, |steps| - 1);
      } else {
        StepKeepsFlag(d, id, last);
        StaysInFront(steps);
      }
    }
  }

  lemma SetLast(steps: seq<Step>)
    requires steps != [] && steps[|steps| - 1].SetOnline?
    ensures StaysConnected(steps) <==> IsRegistered(steps[..|steps| - 1]) && steps[|steps| - 1].online
  {
    var last := |steps| - 1;
    if StaysConnected(steps) {
      var k :| 0 <= k < |steps| && Connects(steps, k) && forall j :: k < j < |steps| ==> !steps[j].SetOnline?;
      assert k == last;
    }
    assert IsRegistered(steps[..last]) && steps[last].online ==> Connects(steps, last);
  }

  lemma StaysInFront(steps: seq<Step>)
    requires steps != [] && !steps[|steps| - 1].SetOnline?
    requires steps[|steps| - 1].Register? ==> IsRegistered(steps[..|steps| - 1])
    ensures StaysConnected(steps) <==> StaysConnected(steps[..|steps| - 1])
  {
    var last := |steps| - 1;
    var front := steps[..last];
    assert forall k :: 0 <= k < last ==> front[..k] == steps[..k];
    if StaysConnected(steps) {
      var k :| 0 <= k < |steps| && Connects(steps, k) && forall j :: k < j < |steps| ==> !steps[j].SetOnline?;
      assert k < last;
      assert Connects(front, k);
    }
    if StaysConnected(front) {
      var k :| 0 <= k < last && Connects(front, k) && forall j :: k < j < last ==> !front[j].SetOnline?;
      assert Connects(steps, k);
    }
  }

  /** What a desired write does to the handle of its device. */
  lemma WriteOnHandle(d: Device, id: string, props: Props, source: string, now: int)
    requires Ok(d)
    ensures var after := Apply(d, id, Writes([props], source, false, now));
            var op := DesiredOp(id, props, d.counter + 1, source);
            && after.counter == d.counter + 1 && after.issued == d.issued + [op]
            && after.sent == d.sent + (if IsConnected(d) then [op] else [])
            && match d.handle
               case None => after.handle.None?
               case Some(h) =>
                 && after.handle.Some?
                 && after.handle.value.lastDelivered == (if IsConnected(d) then op.version else h.lastDelivered)
                 && after.handle.value.cache == h.cache + (if IsConnected(d) then [] else [op])
  {
    hide CommitDesired;
    var all := [props];
    assert all[..|all| - 1] == [];
    assert WriteAll(d, id, all, source, now) == Write(d, id, props, source, now).0;
    assert IsConnected(d) ==> d.handle.value.lastDelivered <= d.counter;
  }

  /** So a desired write reaches a device at once, and moves its watermark, exactly when
      the device stands connected; a registered device that does not has it cached. */
  lemma WriteReachesConnected(id: string, steps: seq<Step>, props: Props, source: string, now: int)
    requires AllWellformed(steps)
    ensures var d := Run(id, steps);
            var after := Apply(d, id, Writes([props], source, false, now));
            var op := DesiredOp(id, props, d.counter + 1, source);
            && (d.handle.Some? <==> IsRegistered(steps)) && (after.handle.Some? <==> IsRegistered(steps))
            && after.sent == d.sent + (if StaysConnected(steps) then [op] else [])
            && (IsRegistered(steps) ==>
                  && after.handle.value.lastDelivered ==
                       (if StaysConnected(steps) then op.version else d.handle.value.lastDelivered)
                  && after.handle.value.cache == d.handle.value.cache + (if StaysConnected(steps) then [] else [op]))
  {
    hide Ok, Run, StaysConnected, IsRegistered, Apply;
    RunIsOk(id, steps);
    ConnectedByLastSetting(id, steps);
    RegisteredInRun(id, steps);
    WriteOnHandle(Run(id, steps), id, props, source, now);
  }

  /** In particular the first write after a first registration. */
  lemma FirstWriteIsDelivered(id: string, steps: seq<Step>, props: Props, source: string, now: int)
    requires AllWellformed(steps) && !IsRegistered(steps)
    ensures var d := Run(id, steps + [Register]);
            var after := Apply(d, id, Writes([props], source, false, now));
            && IsConnected(d) && d.sent == []
            && after.sent == [DesiredOp(id, props, d.counter + 1, source)]
            && after.handle.Some? && after.handle.value.lastDelivered == d.counter + 1 && after.handle.value.cache == []
  {
    hide Ok, Run, Apply;
    var d := Run(id, steps);
    RunIsOk(id, steps);
    RegisteredInRun(id, steps);
    assert Run(id, steps + [Register]) == Apply(d, id, Register) by {
      RunOneMore(id, steps, Register);
    }
    NewDeviceIsConnected(d, id);
    StepKeepsOk(d, id, Register);
    WriteOnHandle(Apply(d, id, Register), id, props, source, now);
    UnknownReceivedNothing(d, id);
  }

  lemma UnknownReceivedNothing(d: Device, id: string)
    requires Ok(d) && d.handle.None?
    ensures d.sent == [] && Apply(d, id, Register).sent == []
  {
  }

  // ---- The cache watermark ----

  /** What a step adds to the cache: writes to an offline device, and what a reconcile puts back. */
  function CachedBy(d: Device, id: string, step: Step): seq<DesiredOp> {
    var after := Apply(d, id, step);
    if d.handle.None? || after.handle.None? then []
    else if step.Reconcile? then after.handle.value.cache
    else if |d.handle.value.cache| <= |after.handle.value.cache| then after.handle.value.cache[|d.handle.value.cache|..]
    else []
  }

  /** Every op that was ever cached for the device. */
  function EverCached(id: string, steps: seq<Step>): seq<DesiredOp> {
    if steps == [] then []
    else EverCached(id, steps[..|steps| - 1]) + CachedBy(Run(id, steps[..|steps| - 1]), id, steps[|steps| - 1])
  }

  /** The cache grew by these ops, and its watermark covers them. */
  ghost predicate Caches(before: Handle, after: Handle, ops: seq<DesiredOp>) {
    after.cache == before.cache + ops && after.cacheWatermark == MaxVersion(before.cacheWatermark, Highest(ops))
  }

  lemma CachesNothing(h: Handle)
    requires h.cacheWatermark >= 0
    ensures Caches(h, h, [])
  {
    assert h.cache + [] == h.cache;
  }

  lemma CachesMore(a: Handle, b: Handle, c: Handle, ops: seq<DesiredOp>, more: seq<DesiredOp>)
    requires Caches(a, b, ops) && Caches(b, c, more)
    ensures Caches(a, c, ops + more)
  {
    HighestOfConcat(ops, more);
    assert a.cache + (ops + more) == a.cache + ops + more;
  }

  lemma DeliverCaches(d: Device, op: DesiredOp)
    requires d.handle.Some? && d.handle.value.cacheWatermark >= 0 && op.version >= 0
    ensures var after := Deliver(d, op).0;
            && after.handle.Some? && after.handle.value.cacheWatermark >= 0
            && Caches(d.handle.value, after.handle.value, if IsConnected(d) then [] else [op])
  {
    assert [op][..0] == [];
    CachesNothing(d.handle.value);
  }

  lemma {:induction false} WritesCache(d: Device, id: string, batch: seq<Props>, source: string, now: int) returns (ops: seq<DesiredOp>)
    requires d.handle.Some? && d.handle.value.cacheWatermark >= 0 && d.counter >= 0
    ensures var after := WriteAll(d, id, batch, source, now);
            && after.counter >= 0 && after.handle.Some? && after.handle.value.cacheWatermark >= 0
            && Caches(d.handle.value, after.handle.value, ops)
  {
    if batch == [] {
      ops := [];
      CachesNothing(d.handle.value);
    } else {
      hide Caches, CommitDesired;
      var props := batch[|batch| - 1];
      ops := WritesCache(d, id, batch[..|batch| - 1], source, now);
      var before := WriteAll(d, id, batch[..|batch| - 1], source, now);
      var op := DesiredOp(id, props, before.counter + 1, source);
      var issued := Issue(before, op, now);
      DeliverCaches(issued, op);
      var more := if IsConnected(issued) then [] else [op];
      CachesMore(d.handle.value, before.handle.value, Deliver(issued, op).0.handle.value, ops, more);
      ops := ops + more;
    }
  }

  lemma {:induction false} DeliverAllCaches(d: Device, ops: seq<DesiredOp>)
    requires d.handle.Some? && d.handle.value.cacheWatermark >= 0
    requires forall i :: 0 <= i < |ops| ==> ops[i].version >= 0
    ensures var after := DeliverAll(d, ops);
            && after.handle.Some? && after.handle.value.cacheWatermark >= 0
            && Caches(d.handle.value, after.handle.value, if IsConnected(d) || ops == [] then [] else [ops[0]])
    decreases |ops|
  {
    if ops == [] {
      CachesNothing(d.handle.value);
    } else {
      hide Caches;
      DeliverCaches(d, ops[0]);
      if IsConnected(d) {
        var next := Deliver(d, ops[0]).0;
        DeliverAllCaches(next, ops[1..]);
        var none: seq<DesiredOp> := [];
        CachesMore(d.handle.value, next.handle.value, DeliverAll(next, ops[1..]).handle.value, none, none);
        assert none + none == none;
      }
    }
  }

  lemma CachedIs(d: Device, id: string, step: Step, ops: seq<DesiredOp>)
    requires d.handle.Some? && Apply(d, id, step).handle.Some? && !step.Reconcile?
    requires Caches(d.handle.value, Apply(d, id, step).handle.value, ops)
    ensures CachedBy(d, id, step) == ops
  {
    var after := Apply(d, id, step).handle.value.cache;
    assert after[|d.handle.value.cache|..] == ops;
  }

  /** What a step does to the cache: a reconcile drains it, and what is added raises its watermark. */
  lemma StepCaches(d: Device, id: string, step: Step)
    requires Ok(d) && (d.handle.Some? ==> d.handle.value.cacheWatermark >= 0)
    requires Apply(d, id, step).handle.Some?
    ensures var before := if d.handle.None? then REGISTERED
                          else if step.Reconcile? then d.handle.value.(cache := [])
                          else d.handle.value;
            var after := Apply(d, id, step).handle.value;
            after.cacheWatermark >= 0 && Caches(before, after, CachedBy(d, id, step))
  {
    hide Caches, CachedBy, LogOk, DocOk, Plan, DesiredSince;
    if d.handle.None? {
      UnknownCaches(d, id, step);
    } else {
      match step
      case Writes(batch, source, partial, now) =>
        var ops := WritesCache(d, id, batch, source, now);
        CachedIs(d, id, step, ops);
      case Transaction(props, now) =>
        TransactionCaches(d, id, props, now);
      case Resume(now) =>
        OnlineOpsAreFaithful(d, id);
        DeliverAllCaches(d, ResumeOps(d, id));
        CachedIs(d, id, step, if IsConnected(d) || ResumeOps(d, id) == [] then [] else [ResumeOps(d, id)[0]]);
      case Reconcile(now) => ReconcileCaches(d, id, now);
      case _ =>
        SameCache(d, id, step);
    }
  }

  lemma UnknownCaches(d: Device, id: string, step: Step)
    requires d.handle.None? && Apply(d, id, step).handle.Some?
    ensures Apply(d, id, step).handle == Some(REGISTERED) && CachedBy(d, id, step) == []
    ensures Caches(REGISTERED, REGISTERED, [])
  {
    if !step.Register? {
      if step.SetOnline? {
      } else {
        StepKeepsFlag(d, id, step);
      }
    }
    CachesNothing(REGISTERED);
  }

  lemma TransactionCaches(d: Device, id: string, props: Props, now: int)
    requires d.handle.Some? && d.handle.value.cacheWatermark >= 0 && d.counter >= 0
    ensures var after := Apply(d, id, Transaction(props, now));
            && after.handle.Some? && after.handle.value.cacheWatermark >= 0
            && Caches(d.handle.value, after.handle.value, CachedBy(d, id, Transaction(props, now)))
  {
    hide Caches, CommitDesired, Restored;
    var op := DesiredOp(id, props, d.counter + 1, "transaction");
    DeliverCaches(Issue(d, op, now), op);
    CachedIs(d, id, Transaction(props, now), if IsConnected(d) then [] else [op]);
  }

  lemma SameCache(d: Device, id: string, step: Step)
    requires d.handle.Some? && d.handle.value.cacheWatermark >= 0
    requires step.Report? || step.Delete? || step.Collect? || step.Register? || step.SetOnline?
    ensures var after := Apply(d, id, step);
            && after.handle.Some? && after.handle.value.cacheWatermark >= 0
            && Caches(d.handle.value, after.handle.value, CachedBy(d, id, step))
  {
    var after := Apply(d, id, step).handle.value;
    CachesNothing(d.handle.value);
    assert Caches(d.handle.value, after, []);
    CachedIs(d, id, step, []);
  }

  lemma PlanIsPositive(d: Device, id: string)
    requires Ok(d) && d.handle.Some?
    ensures forall i :: 0 <= i < |ReconcileOps(d, id)| ==> ReconcileOps(d, id)[i].version >= 0
  {
    hide LogOk, DocOk, Plan, DesiredSince;
    OnlineOpsAreFaithful(d, id);
    PlanIsFaithful(d.handle.value.cache + OnlineOps(d, id), d.issued, d.counter);
  }

  lemma ReconcileIsReplayed(d: Device, id: string, now: int)
    requires d.handle.Some?
    ensures Apply(d, id, Reconcile(now)).handle == DeliverAll(Drained(d), ReconcileOps(d, id)).handle
  {
  }

  lemma NothingWasCached(h: Handle, drained: Handle, ops: seq<DesiredOp>)
    requires drained.cache == [] && Caches(drained, h, ops)
    ensures h.cache == ops && Caches(drained, h, h.cache)
  {
    assert [] + ops == ops;
  }

  lemma ReconcileCaches(d: Device, id: string, now: int)
    requires Ok(d) && d.handle.Some? && d.handle.value.cacheWatermark >= 0
    ensures var after := Apply(d, id, Reconcile(now));
            && after.handle.Some? && after.handle.value.cacheWatermark >= 0
            && Caches(d.handle.value.(cache := []), after.handle.value, CachedBy(d, id, Reconcile(now)))
  {
    hide Caches, Plan, OnlineOps;
    PlanIsPositive(d, id);
    DeliverAllCaches(Drained(d), ReconcileOps(d, id));
    ReconcileIsReplayed(d, id, now);
    NothingWasCached(DeliverAll(Drained(d), ReconcileOps(d, id)).handle.value, d.handle.value.(cache := []),
                     if IsConnected(d) || ReconcileOps(d, id) == [] then [] else [ReconcileOps(d, id)[0]]);
  }

  /** Over every run, the cache watermark is the highest version that was ever cached, drained or not,
      and so it covers what is cached. */
  lemma {:induction false} CacheWatermarkIsHighest(id: string, steps: seq<Step>)
    requires AllWellformed(steps) && Run(id, steps).handle.Some?
    ensures var h := Run(id, steps).handle.value;
            && h.cacheWatermark == Highest(EverCached(id, steps))
            && Versions(h.cache) <= Versions(EverCached(id, steps))
  {
    hide Ok, Apply, CachedBy;
    var front, last := steps[..|steps| - 1], steps[|steps| - 1];
    var d := Run(id, front);
    RunIsOk(id, front);
    if d.handle.Some? {
      CacheWatermarkIsHighest(id, front);
    } else {
      NeverCached(id, front);
    }
    StepCaches(d, id, last);
    HighestOfConcat(EverCached(id, front), CachedBy(d, id, last));
    VersionsOfConcat(EverCached(id, front), CachedBy(d, id, last));
    if d.handle.Some? {
      VersionsOfConcat(if last.Reconcile? then [] else d.handle.value.cache, CachedBy(d, id, last));
    }
  }

  lemma {:induction false} NeverCached(id: string, steps: seq<Step>)
    requires Run(id, steps).handle.None?
    ensures EverCached(id, steps) == []
  {
    if steps != [] {
      var front, last := steps[..|steps| - 1], steps[|steps| - 1];
      if Run(id, front).handle.Some? {
        if !last.SetOnline? {
          StepKeepsFlag(Run(id, front), id, last);
        }
      }
      NeverCached(id, front);
    }
  }
}
