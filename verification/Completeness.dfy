/** Devices that come back through a reconcile miss nothing and get nothing twice. */
module Completeness {
  import opened Model
  import opened Replay
  import opened Machine
  import opened Guarantees

  predicate IsWrite(step: Step) {
    (step.Writes? && step.batch != []) || step.Transaction?
  }

  predicate Returning(steps: seq<Step>) {
    steps != [] && steps[|steps| - 1] == SetOnline(true)
  }

  /** Whether `step` may come after `before`: a device is registered before its
      first write, a step online is followed by a reconcile and a reconcile
      follows nothing else, and there is no resume. */
  predicate MayFollow(before: seq<Step>, step: Step) {
    && Wellformed(step)
    && !step.Resume?
    && (Returning(before) <==> step.Reconcile?)
    && (IsWrite(step) ==> Register in before)
  }

  ghost predicate Disciplined(steps: seq<Step>) {
    forall k :: 0 <= k < |steps| ==> MayFollow(steps[..k], steps[k])
  }

  /** Everything issued was delivered, or waits in the cache, in order. */
  ghost predicate Complete(d: Device) {
    match d.handle
    case None => d.issued == []
    case Some(h) => d.issued == d.sent + h.cache
  }

  /** Between a step online and its reconcile the cache still holds the backlog. */
  ghost predicate Settled(d: Device, returning: bool) {
    d.handle.Some? && d.handle.value.online && !returning ==> d.handle.value.cache == []
  }

  lemma WriteKeepsComplete(d: Device, id: string, props: Props, source: string, now: int)
    requires Complete(d) && Settled(d, false) && d.handle.Some?
    ensures var after := Write(d, id, props, source, now).0;
            Complete(after) && Settled(after, false) && after.handle.Some?
  {
    var op := DesiredOp(id, props, d.counter + 1, source);
    var cache := d.handle.value.cache;
    assert d.sent + cache + [op] == d.sent + (cache + [op]);
    assert cache == [] ==> d.sent + cache + [op] == d.sent + [op] + [];
  }

  lemma {:induction false} WriteAllKeepsComplete(d: Device, id: string, batch: seq<Props>, source: string, now: int)
    requires Complete(d) && Settled(d, false) && (batch != [] ==> d.handle.Some?)
    ensures var after := WriteAll(d, id, batch, source, now);
            Complete(after) && Settled(after, false) && (batch != [] ==> after.handle.Some?)
  {
    if batch != [] {
      WriteAllKeepsComplete(d, id, batch[..|batch| - 1], source, now);
      WriteKeepsComplete(WriteAll(d, id, batch[..|batch| - 1], source, now), id, batch[|batch| - 1], source, now);
    }
  }

  /** Every write in the history that is newer than the watermark is cached. */
  lemma OnlineOpsAreCached(d: Device, id: string)
    requires Ok(d) && Complete(d) && d.handle.Some?
    ensures Versions(OnlineOps(d, id)) <= Versions(d.handle.value.cache)
  {
    var ops, cache := OnlineOps(d, id), d.handle.value.cache;
    OnlineOpsAreFaithful(d, id);
    VersionsOfConcat(d.sent, cache);
    forall v | v in Versions(ops) ensures v in Versions(cache) {
      var i := IndexOfVersion(ops, v);
      PropsAtIsIssued(d.issued, v);
    }
  }

  lemma PlanIsBacklog(d: Device, id: string)
    requires Ok(d) && Complete(d) && d.handle.Some?
    ensures ReconcileOps(d, id) == d.handle.value.cache == d.issued[|d.sent|..]
    ensures Increasing(ReconcileOps(d, id))
  {
    IncreasingConcat(d.sent, d.handle.value.cache);
    OnlineOpsAreCached(d, id);
    PlanOfCovered(d.handle.value.cache, OnlineOps(d, id));
  }

  lemma ReconcileKeepsComplete(d: Device, id: string, now: int)
    requires Ok(d) && Complete(d) && d.handle.Some? && d.handle.value.online
    ensures var after := Apply(d, id, Reconcile(now));
            Complete(after) && after.handle.Some? && after.handle.value.cache == [] && after.sent == d.issued
  {
    PlanIsBacklog(d, id);
    ReconcileDeliversPlan(d, id, now);
  }

  lemma StepKeepsComplete(d: Device, id: string, step: Step, returning: bool)
    requires Ok(d) && Complete(d) && Settled(d, returning)
    requires !step.Resume? && (returning <==> step.Reconcile?) && (IsWrite(step) ==> d.handle.Some?)
    requires returning && d.handle.Some? ==> d.handle.value.online
    ensures Complete(Apply(d, id, step)) && Settled(Apply(d, id, step), step == SetOnline(true))
  {
    match step
    case Writes(batch, source, partial, now) => WriteAllKeepsComplete(d, id, batch, source, now);
    case Transaction(props, now) => WriteKeepsComplete(d, id, props, "transaction", now);
    case Reconcile(now) =>
      if d.handle.Some? {
        ReconcileKeepsComplete(d, id, now);
      }
    case _ =>
  }

  /** Registered devices are those a `Register` step came by. */
  lemma {:induction false} RegisteredOnce(id: string, steps: seq<Step>)
    ensures Run(id, steps).handle.Some? <==> Register in steps
    ensures Returning(steps) && Run(id, steps).handle.Some? ==> Run(id, steps).handle.value.online
  {
    if steps != [] {
      var last := |steps| - 1;
      RegisteredOnce(id, steps[..last]);
      StepKeepsHandle(Run(id, steps[..last]), id, steps[last]);
      assert steps == steps[..last] + [steps[last]];
    }
  }

  lemma StepKeepsHandle(d: Device, id: string, step: Step)
    ensures Apply(d, id, step).handle.Some? <==> d.handle.Some? || step.Register?
  {
    match step
    case Writes(batch, source, partial, now) => WriteAllKeepsHandle(d, id, batch, source, now);
    case Resume(now) => DeliverAllKeepsHandle(d, ResumeOps(d, id));
    case Reconcile(now) =>
      if d.handle.Some? {
        DeliverAllKeepsHandle(Drained(d), ReconcileOps(d, id));
      }
    case _ =>
  }

  lemma {:induction false} WriteAllKeepsHandle(d: Device, id: string, batch: seq<Props>, source: string, now: int)
    ensures WriteAll(d, id, batch, source, now).handle.Some? == d.handle.Some?
  {
    if batch != [] {
      WriteAllKeepsHandle(d, id, batch[..|batch| - 1], source, now);
    }
  }

  lemma {:induction false} DeliverAllKeepsHandle(d: Device, ops: seq<DesiredOp>)
    ensures DeliverAll(d, ops).handle.Some? == d.handle.Some?
    decreases |ops|
  {
    if ops != [] && Deliver(d, ops[0]).1 {
      DeliverAllKeepsHandle(Deliver(d, ops[0]).0, ops[1..]);
    }
  }

  /** In every disciplined run the delivered ops followed by the cached ones are
      exactly the ops issued: none lost, none twice, in order. */
  lemma {:induction false} NothingLostNothingTwice(id: string, steps: seq<Step>)
    requires Disciplined(steps)
    ensures Ok(Run(id, steps)) && Complete(Run(id, steps)) && Settled(Run(id, steps), Returning(steps))
  {
    RunIsOk(id, steps);
    if steps != [] {
      var last := |steps| - 1;
      DisciplinedPrefix(steps, last);
      NothingLostNothingTwice(id, steps[..last]);
      RegisteredOnce(id, steps[..last]);
      StepKeepsComplete(Run(id, steps[..last]), id, steps[last], Returning(steps[..last]));
    }
  }

  ghost predicate StaysOffline(steps: seq<Step>) {
    forall k :: 0 <= k < |steps| ==> !steps[k].SetOnline? && !steps[k].Resume? && !steps[k].Reconcile?
  }

  /** While a device stays offline it receives nothing. */
  lemma {:induction false} OfflineReceivesNothing(d: Device, id: string, steps: seq<Step>)
    requires d.handle.Some? && !d.handle.value.online
    requires StaysOffline(steps)
    ensures var after := ApplyAll(d, id, steps);
            after.handle.Some? && !after.handle.value.online && after.sent == d.sent
  {
    if steps != [] {
      var last := |steps| - 1;
      OfflineReceivesNothing(d, id, steps[..last]);
      var before := ApplyAll(d, id, steps[..last]);
      match steps[last]
      case Writes(batch, source, partial, now) => OfflineWritesAreCached(before, id, batch, source, now);
      case _ =>
    }
  }

  lemma {:induction false} OfflineWritesAreCached(d: Device, id: string, batch: seq<Props>, source: string, now: int)
    requires d.handle.Some? && !d.handle.value.online
    ensures var after := WriteAll(d, id, batch, source, now);
            after.handle.Some? && !after.handle.value.online && after.sent == d.sent
  {
    if batch != [] {
      OfflineWritesAreCached(d, id, batch[..|batch| - 1], source, now);
    }
  }

  /** The state after going offline for a while and coming back online. */
  function Back(before: seq<Step>, offline: seq<Step>): seq<Step> {
    before + [SetOnline(false)] + offline + [SetOnline(true)]
  }

  lemma SentIsFrozen(id: string, before: seq<Step>, offline: seq<Step>)
    requires Run(id, before).handle.Some? && StaysOffline(offline)
    ensures var d := Run(id, Back(before, offline));
            d.sent == Run(id, before).sent && d.handle.Some? && d.handle.value.online
  {
    var gone := before + [SetOnline(false)];
    var away := gone + offline;
    var back := away + [SetOnline(true)];
    assert gone[..|before|] == before && back[..|away|] == away;
    ApplyAllConcat(NEW_DEVICE, id, gone, offline);
    OfflineReceivesNothing(Run(id, gone), id, offline);
  }

  /** Reconcile completeness. When a device that is up to date goes offline and
      comes back, the plan is exactly the ops issued meanwhile, in increasing
      version order, however many events have pushed them out of the history;
      and after the reconcile the device has received everything ever issued. */
  lemma ReconcilePlansTheBacklog(id: string, before: seq<Step>, offline: seq<Step>, now: int)
    requires Disciplined(before) && Disciplined(Back(before, offline)) && StaysOffline(offline)
    requires !Returning(before) && Run(id, before).handle.Some? && Run(id, before).handle.value.online
    ensures var d := Run(id, Back(before, offline));
            var plan := ReconcileOps(d, id);
            && |Run(id, before).issued| <= |d.issued|
            && plan == d.issued[|Run(id, before).issued|..]
            && Increasing(plan)
            && Apply(d, id, Reconcile(now)).sent == d.issued
  {
    NothingLostNothingTwice(id, before);
    NothingLostNothingTwice(id, Back(before, offline));
    SentIsFrozen(id, before, offline);
    var d := Run(id, Back(before, offline));
    PlanIsBacklog(d, id);
    ReconcileKeepsComplete(d, id, now);
  }

  lemma DisciplinedPrefix(steps: seq<Step>, n: nat)
    requires Disciplined(steps) && n <= |steps|
    ensures Disciplined(steps[..n])
  {
    forall k | 0 <= k < n ensures MayFollow(steps[..n][..k], steps[..n][k]) {
      assert steps[..n][..k] == steps[..k];
    }
  }
}
