/** Exactly when a reconcile repeats a delivery or breaks its order, told from the
    cache, the delivery watermark and the history window. */
module Reconciling {
  import opened Model
  import opened Shadow
  import opened Replay
  import opened Machine
  import opened Guarantees

  // ---- What the history adds ----

  /** The writes newer than a watermark are those of the desired events newer than it. */
  lemma {:induction false} SinceHasVersions(
      events: seq<Event>, id: string, watermark: int, issued: seq<DesiredOp>, counter: int, v: int)
    requires LogOk(events, issued, counter)
    ensures v in Versions(DesiredSince(events, id, watermark)) <==> HasWrite(events, v) && v > watermark
  {
    if events != [] {
      var last := |events| - 1;
      SinceHasVersions(events[..last], id, watermark, issued, counter, v);
      var rest := DesiredSince(events[..last], id, watermark);
      var op := DesiredOp(id, if events[last].snapshot.Some? then events[last].snapshot.value.desired else map[],
                          events[last].version, "reconnect");
      assert (rest + [op])[..|rest|] == rest;
      HasWriteOfLast(events, v);
    }
  }

  lemma HasWriteOfLast(events: seq<Event>, v: int)
    requires events != []
    ensures var last := |events| - 1;
            HasWrite(events, v) <==>
              HasWrite(events[..last], v) || (events[last].kind.EventDesired? && events[last].version == v)
  {
    var last := |events| - 1;
    if i :| 0 <= i < last && events[..last][i].kind.EventDesired? && events[..last][i].version == v {
      assert events[i].kind.EventDesired? && events[i].version == v;
    }
    if i :| 0 <= i < |events| && events[i].kind.EventDesired? && events[i].version == v {
      assert i < last ==> events[..last][i] == events[i];
    }
  }

  lemma OnlineVersions(d: Device, id: string, v: int)
    requires Ok(d) && d.handle.Some?
    ensures v in Versions(OnlineOps(d, id)) <==>
              HasWrite(Window(d.shadow.log), v) && v > d.handle.value.lastDelivered
  {
    WindowKeepsLogOk(d.shadow.log, d.issued, d.counter);
    SinceHasVersions(Window(d.shadow.log), id, d.handle.value.lastDelivered, d.issued, d.counter, v);
  }

  // ---- Repeated deliveries ----

  /** The watermark keeps the history part of a plan apart from what was delivered. */
  lemma OnlineOpsAreNew(d: Device, id: string)
    requires Ok(d) && d.handle.Some?
    ensures Versions(OnlineOps(d, id)) !! Versions(d.sent)
  {
    OnlineOpsAreFaithful(d, id);
    forall v | v in Versions(OnlineOps(d, id)) ensures v !in Versions(d.sent) {
      var i := IndexOfVersion(OnlineOps(d, id), v);
    }
  }

  /** A reconcile delivers nothing a second time if and only if nothing in the
      cache was delivered before. */
  lemma ReconcileRepeats(d: Device, id: string, now: int)
    requires Ok(d) && IsConnected(d)
    ensures var plan, cache := ReconcileOps(d, id), d.handle.value.cache;
            && Apply(d, id, Reconcile(now)).sent == d.sent + plan
            && (Versions(plan) !! Versions(d.sent) <==> Versions(cache) !! Versions(d.sent))
  {
    ReconcileDeliversPlan(d, id, now);
    VersionsOfConcat(d.handle.value.cache, OnlineOps(d, id));
    OnlineOpsAreNew(d, id);
  }

  // ---- Order ----

  /** Every op is above the watermark, and a new maximum or a repeat. */
  ghost predicate Climbs(ops: seq<DesiredOp>, watermark: int) {
    forall k :: 0 <= k < |ops| ==>
      && ops[k].version > watermark
      && (ops[k].version > Highest(ops[..k]) || ops[k].version in Versions(ops[..k]))
  }

  ghost predicate StartsAbove(plan: seq<DesiredOp>, watermark: int) {
    Increasing(plan) && (plan != [] ==> plan[0].version > watermark)
  }

  lemma IncreasingSnoc(ops: seq<DesiredOp>, op: DesiredOp)
    requires forall i :: 0 <= i < |ops| ==> ops[i].version > 0
    requires op.version > 0
    ensures Increasing(ops + [op]) <==> Increasing(ops) && op.version > Highest(ops)
  {
    IncreasingConcat(ops, [op]);
    if Increasing(ops) {
      HighestOfIncreasing(ops);
    }
  }

  ghost predicate AllPositive(ops: seq<DesiredOp>) {
    forall i :: 0 <= i < |ops| ==> ops[i].version > 0
  }

  lemma PlanIsPositive(ops: seq<DesiredOp>)
    requires AllPositive(ops)
    ensures AllPositive(Plan(ops))
  {
    forall k | 0 <= k < |Plan(ops)| ensures Plan(ops)[k].version > 0 {
      VersionOfIndex(Plan(ops), k);
      var i := IndexOfVersion(ops, Plan(ops)[k].version);
    }
  }

  lemma NewOpInOrder(plan: seq<DesiredOp>, op: DesiredOp, watermark: int)
    requires AllPositive(plan) && op.version > 0
    ensures StartsAbove(plan + [op], watermark) <==>
              StartsAbove(plan, watermark) && op.version > Highest(plan) && op.version > watermark
  {
    IncreasingSnoc(plan, op);
    if plan != [] {
      assert (plan + [op])[0] == plan[0];
      VersionOfIndex(plan, 0);
    }
  }

  /** Adding an op keeps the plan in order exactly when it is a repeat, or a new
      maximum above the watermark. */
  lemma StartsAboveSnoc(ops: seq<DesiredOp>, op: DesiredOp, watermark: int)
    requires AllPositive(ops) && op.version > 0
    ensures StartsAbove(Plan(ops + [op]), watermark) <==>
              && StartsAbove(Plan(ops), watermark)
              && (op.version in Versions(ops) || (op.version > Highest(ops) && op.version > watermark))
  {
    hide StartsAbove, AllPositive;
    PlanSnoc(ops, op);
    PlanIsPositive(ops);
    NewOpInOrder(Plan(ops), op, watermark);
  }

  lemma AboveWatermark(ops: seq<DesiredOp>, watermark: int, v: int)
    requires StartsAbove(Plan(ops), watermark) && v in Versions(ops)
    ensures v > watermark
  {
    hide Plan, Highest, Versions;
    var i := IndexOfVersion(Plan(ops), v);
  }

  /** The plan of the cache alone is in order exactly when the cache climbs. */
  lemma {:induction false} CacheInOrder(cache: seq<DesiredOp>, watermark: int)
    requires AllPositive(cache)
    ensures StartsAbove(Plan(cache), watermark) <==> Climbs(cache, watermark)
  {
    if cache != [] {
      hide StartsAbove, Climbs, Plan, Versions, Highest;
      var last, front := |cache| - 1, cache[..|cache| - 1];
      CacheInOrder(front, watermark);
      StartsAboveSnoc(front, cache[last], watermark);
      ClimbsSnoc(front, cache[last], watermark);
      assert front + [cache[last]] == cache;
      if StartsAbove(Plan(front), watermark) && cache[last].version in Versions(front) {
        AboveWatermark(front, watermark, cache[last].version);
      }
    }
  }

  lemma ClimbsSnoc(ops: seq<DesiredOp>, op: DesiredOp, watermark: int)
    ensures Climbs(ops + [op], watermark) <==>
              && Climbs(ops, watermark) && op.version > watermark
              && (op.version > Highest(ops) || op.version in Versions(ops))
  {
    var all := ops + [op];
    assert all[..|ops|] == ops && all[|ops|] == op;
    assert forall k :: 0 <= k < |ops| ==> all[..k] == ops[..k] && all[k] == ops[k];
  }

  /** No op of `online` fits in below the highest cached one. */
  ghost predicate FitsBehind(cache: seq<DesiredOp>, online: seq<DesiredOp>) {
    forall v :: v in Versions(online) && v <= Highest(cache) ==> v in Versions(cache)
  }

  lemma FitsSnoc(cache: seq<DesiredOp>, front: seq<DesiredOp>, op: DesiredOp)
    ensures FitsBehind(cache, front + [op]) <==>
              FitsBehind(cache, front) && (op.version <= Highest(cache) ==> op.version in Versions(cache))
  {
    PlanSnoc(front, op);
  }

  lemma {:induction false} PlanInOrder(cache: seq<DesiredOp>, online: seq<DesiredOp>, watermark: int)
    requires AllPositive(cache) && AllPositive(online) && Increasing(online)
    requires forall i :: 0 <= i < |online| ==> online[i].version > watermark
    ensures StartsAbove(Plan(cache + online), watermark) <==> StartsAbove(Plan(cache), watermark) && FitsBehind(cache, online)
  {
    if online == [] {
      assert cache + online == cache;
    } else {
      hide StartsAbove, Plan, FitsBehind, Highest, Versions;
      var front, op := online[..|online| - 1], online[|online| - 1];
      assert online == front + [op] && cache + online == (cache + front) + [op];
      PlanInOrder(cache, front, watermark);
      StartsAboveSnoc(cache + front, op, watermark);
      FitsSnoc(cache, front, op);
      VersionsOfConcat(cache, front);
      HighestOfConcat(cache, front);
      LastIsHighest(front, op);
      OpIsNew(front, op);
    }
  }

  lemma LastIsHighest(front: seq<DesiredOp>, op: DesiredOp)
    requires AllPositive(front + [op]) && Increasing(front + [op])
    ensures Highest(front) < op.version
  {
    var all := front + [op];
    assert all[|front|] == op && forall i :: 0 <= i < |front| ==> all[i] == front[i];
    IncreasingConcat(front, [op]);
    HighestOfIncreasing(front);
  }

  lemma OpIsNew(front: seq<DesiredOp>, op: DesiredOp)
    requires Increasing(front + [op])
    ensures op.version !in Versions(front)
  {
    IncreasingConcat(front, [op]);
    assert forall i :: 0 <= i < |front| ==> front[i].version <= front[|front| - 1].version;
    if op.version in Versions(front) {
      var i := IndexOfVersion(front, op.version);
    }
  }

  /** An online reconcile keeps delivery in order if and only if every cached op is
      above the watermark and either a new maximum or a repeat, and every write of
      the window that is above the watermark but not above the cache is cached too. */
  lemma ReconcileKeepsOrder(d: Device, id: string, now: int)
    requires Ok(d) && IsConnected(d) && Increasing(d.sent)
    ensures var h := d.handle.value;
            Increasing(Apply(d, id, Reconcile(now)).sent) <==>
              && Climbs(h.cache, h.lastDelivered)
              && forall v :: HasWrite(Window(d.shadow.log), v) && h.lastDelivered < v <= Highest(h.cache) ==>
                   v in Versions(h.cache)
  {
    var h, online := d.handle.value, OnlineOps(d, id);
    OrderOfPlan(d, id, now);
    OnlineOpsAreFaithful(d, id);
    CacheInOrder(h.cache, h.lastDelivered);
    PlanInOrder(h.cache, online, h.lastDelivered);
    forall v ensures v in Versions(online) <==> HasWrite(Window(d.shadow.log), v) && v > h.lastDelivered {
      OnlineVersions(d, id, v);
    }
  }
}
