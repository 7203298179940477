/** What every run of the service guarantees about one device. */
module Guarantees {
  import opened Model
  import opened Conflict
  import opened Shadow
  import opened Replay
  import opened Machine

  ghost predicate NoReconcile(steps: seq<Step>) {
    forall i :: 0 <= i < |steps| ==> !steps[i].Reconcile?
  }

  // ---- Delivery order ----

  /** Without a reconcile, a device receives strictly increasing versions, the
      last of which is its delivery watermark. */
  lemma DeliveriesAreOrdered(id: string, steps: seq<Step>)
    requires AllWellformed(steps) && NoReconcile(steps)
    ensures var d := Run(id, steps);
            && Increasing(d.sent)
            && (d.handle.Some? ==>
                  d.handle.value.lastDelivered == if d.sent == [] then 0 else d.sent[|d.sent| - 1].version)
  {
    RunIsOk(id, steps);
    HighestOfIncreasing(Run(id, steps).sent);
  }

  // ---- The life cycle ----

  /** The state of a stored document follows from its section versions and its
      desired section; a stored document is never tombstoned nor deleted. */
  lemma StateFollowsVersions(id: string, steps: seq<Step>)
    requires AllWellformed(steps)
    ensures var s := Run(id, steps).shadow;
            s.doc.Some? ==>
              var doc := s.doc.value;
              && s.tombstone.None?
              && doc.version == MaxVersion(doc.desiredVersion, doc.reportedVersion) <= Run(id, steps).counter
              && (doc.state == Created <==> doc.version == 0)
              && (doc.state == Created ==> doc.desired == map[] && doc.reported == map[])
              && (doc.reportedVersion > doc.desiredVersion ==> doc.state == Synced)
              && (doc.desiredVersion > doc.reportedVersion && doc.desired != map[] ==> doc.state == Stale)
              && (doc.state == Stale ==> doc.desiredVersion > doc.reportedVersion)
              && (doc.state == Synced ==> doc.reportedVersion > doc.desiredVersion || doc.desired == map[])
              && doc.state != State.Deleted
  {
    RunIsOk(id, steps);
  }

  // ---- Deletion ----

  /** The time of the latest delete, after `steps`. */
  function LatestDelete(deletedAt: int, steps: seq<Step>): int {
    if steps == [] then deletedAt
    else
      match steps[|steps| - 1]
      case Delete(now) => now
      case _ => LatestDelete(deletedAt, steps[..|steps| - 1])
  }

  /** No collection in `steps` has a cutoff above the latest delete before it. */
  predicate KeepsTombstone(deletedAt: int, steps: seq<Step>) {
    steps == [] ||
    var before, last := steps[..|steps| - 1], steps[|steps| - 1];
    && KeepsTombstone(deletedAt, before)
    && (last.Collect? ==> last.cutoff <= LatestDelete(deletedAt, before))
  }

  /** A deleted shadow is not recreated by anything until a collection with a
      cutoff above its latest deletion time. */
  lemma {:induction false} DeletedStaysDeleted(d: Device, id: string, deletedAt: int, steps: seq<Step>)
    requires d.shadow.doc.None? && d.shadow.tombstone == Some(deletedAt)
    requires KeepsTombstone(deletedAt, steps)
    ensures var s := ApplyAll(d, id, steps).shadow;
            s.doc.None? && s.tombstone == Some(LatestDelete(deletedAt, steps))
  {
    if steps != [] {
      var last := |steps| - 1;
      DeletedStaysDeleted(d, id, deletedAt, steps[..last]);
      TombstoneStep(ApplyAll(d, id, steps[..last]), id, steps[last]);
    }
  }

  lemma TombstoneStep(d: Device, id: string, step: Step)
    requires d.shadow.doc.None? && d.shadow.tombstone.Some?
    ensures var s := Apply(d, id, step).shadow;
            && s.doc.None?
            && s.tombstone == match step
                 case Delete(now) => Some(now)
                 case Collect(cutoff) => if d.shadow.tombstone.value < cutoff then None else d.shadow.tombstone
                 case _ => d.shadow.tombstone
  {
    match step
    case Writes(batch, source, partial, now) => WritesRefused(d, id, batch, source, now);
    case Resume(now) => DeliverAllKeepsShadow(d, ResumeOps(d, id));
    case Reconcile(now) =>
      if d.handle.Some? {
        DeliverAllKeepsShadow(Drained(d), ReconcileOps(d, id));
      }
    case _ =>
  }

  lemma {:induction false} WritesRefused(d: Device, id: string, batch: seq<Props>, source: string, now: int)
    requires d.shadow.tombstone.Some?
    ensures WriteAll(d, id, batch, source, now).shadow == d.shadow
  {
    if batch != [] {
      WritesRefused(d, id, batch[..|batch| - 1], source, now);
    }
  }

  lemma {:induction false} DeliverAllKeepsShadow(d: Device, ops: seq<DesiredOp>)
    ensures DeliverAll(d, ops).shadow == d.shadow
    decreases |ops|
  {
    if ops != [] && Deliver(d, ops[0]).1 {
      DeliverAllKeepsShadow(Deliver(d, ops[0]).0, ops[1..]);
    }
  }

  /** Conversely, collection above the latest deletion time lets the next write recreate the shadow. */
  lemma CollectedShadowComesBack(d: Device, id: string, cutoff: int, props: Props, source: string, now: int)
    requires d.shadow.doc.None? && d.shadow.tombstone.Some?
    ensures var after := Write(Apply(d, id, Collect(cutoff)), id, props, source, now).0;
            after.shadow.doc.Some? <==> d.shadow.tombstone.value < cutoff
  {
  }

  // ---- Convergence after a reconnect ----

  lemma {:induction false} PropsAtIsIssued(issued: seq<DesiredOp>, version: int)
    requires Increasing(issued) && PropsAt(issued, version).Some?
    ensures version in Versions(issued)
    ensures issued != [] && version <= issued[|issued| - 1].version
  {
    var last := |issued| - 1;
    if issued[last].version != version {
      PropsAtIsIssued(issued[..last], version);
    }
  }

  /** On a device whose shadow has a desired write, no event is newer than it. */
  lemma LatestWriteIsNewest(d: Device)
    requires Ok(d) && DesiredVersionOf(d.shadow) > 0
    ensures WritesUpTo(Window(d.shadow.log), DesiredVersionOf(d.shadow))
    ensures forall i :: 0 <= i < |d.sent| ==> d.sent[i].version <= DesiredVersionOf(d.shadow)
  {
    var log := d.shadow.log;
    forall i | 0 <= i < |log| && log[i].kind.EventDesired? ensures log[i].version <= DesiredVersionOf(d.shadow) {
      PropsAtIsIssued(d.issued, log[i].version);
    }
    forall i | 0 <= i < |d.sent| ensures d.sent[i].version <= DesiredVersionOf(d.shadow) {
      PropsAtIsIssued(d.issued, d.sent[i].version);
    }
  }

  /** An online device receives the whole list, and its watermark covers it. */
  lemma {:induction false} DeliverAllOnline(d: Device, ops: seq<DesiredOp>)
    requires d.handle.Some? && d.handle.value.online && d.handle.value.lastDelivered >= 0
    ensures DeliverAll(d, ops) == d.(
              sent := d.sent + ops,
              handle := Some(d.handle.value.(
                lastDelivered := MaxVersion(d.handle.value.lastDelivered, Highest(ops)))))
    decreases |ops|
  {
    if ops != [] {
      DeliverAllOnline(Deliver(d, ops[0]).0, ops[1..]);
      assert ops == [ops[0]] + ops[1..];
      HighestOfConcat([ops[0]], ops[1..]);
      assert [ops[0]][..0] == [];
    }
  }

  lemma {:induction false} HighestOfConcat(a: seq<DesiredOp>, b: seq<DesiredOp>)
    ensures Highest(a + b) == MaxVersion(Highest(a), Highest(b))
  {
    if b == [] {
      assert a + b == a;
    } else {
      assert (a + b)[..|a + b| - 1] == a + b[..|b| - 1];
      HighestOfConcat(a, b[..|b| - 1]);
    }
  }

  function Reconnected(d: Device, id: string, now: int): Device {
    Apply(Apply(d, id, SetOnline(true)), id, Resume(now))
  }

  /** The latest desired write can still be handed over on reconnect: it was
      delivered already, or its event is still in the history window. */
  ghost predicate Reachable(d: Device)
    requires d.handle.Some?
  {
    || d.handle.value.lastDelivered >= DesiredVersionOf(d.shadow)
    || HasWrite(Window(d.shadow.log), DesiredVersionOf(d.shadow))
  }

  /** The replayed ops lift the watermark to the desired version exactly when that is reachable. */
  lemma OnlineOpsReachDesired(d: Device, id: string)
    requires Ok(d) && d.handle.Some? && DesiredVersionOf(d.shadow) > 0
    ensures MaxVersion(d.handle.value.lastDelivered, Highest(OnlineOps(d, id))) == DesiredVersionOf(d.shadow)
            <==> Reachable(d)
  {
    var v, watermark := DesiredVersionOf(d.shadow), d.handle.value.lastDelivered;
    var events, ops := Window(d.shadow.log), OnlineOps(d, id);
    LatestWriteIsNewest(d);
    WindowKeepsLogOk(d.shadow.log, d.issued, d.counter);
    WatermarkIsDelivered(d);
    SinceIsFaithful(events, id, watermark, if HasWrite(events, v) then v else v - 1, d.issued, d.counter);
    HighestOfIncreasing(ops);
    if HasWrite(events, v) && v > watermark {
      SinceEndsAtNewest(events, id, watermark, v, d.issued, d.counter);
    }
  }

  /** After a reconnect the device is at the desired version exactly when that
      version could still be handed over. */
  lemma ReconnectReachesDesired(d: Device, id: string, now: int)
    requires Ok(d) && d.handle.Some? && DesiredVersionOf(d.shadow) > 0
    ensures var after := Reconnected(d, id, now);
            && after.handle.Some?
            && after.shadow.doc == d.shadow.doc
            && after.sent == d.sent + OnlineOps(d, id)
            && (after.handle.value.lastDelivered == DesiredVersionOf(after.shadow) <==> Reachable(d))
  {
    WatermarkIsDelivered(d);
    OnlineOpsReachDesired(d, id);
    DeliverAllOnline(Apply(d, id, SetOnline(true)), OnlineOps(d, id));
  }

  lemma WatermarkIsDelivered(d: Device)
    requires Ok(d) && d.handle.Some? && DesiredVersionOf(d.shadow) > 0
    ensures 0 <= d.handle.value.lastDelivered <= DesiredVersionOf(d.shadow)
  {
    LatestWriteIsNewest(d);
    if d.sent != [] && Highest(d.sent) != 0 {
      var i := IndexOfVersion(d.sent, Highest(d.sent));
    }
  }

  /** The op that brought the device to its watermark carries the props that
      were issued last, and nothing is left to replay. */
  lemma AtDesiredVersion(d: Device, id: string)
    requires Ok(d) && d.handle.Some? && DesiredVersionOf(d.shadow) > 0
    requires d.handle.value.lastDelivered == DesiredVersionOf(d.shadow)
    ensures ResumeOps(d, id) == []
    ensures d.issued != []
    ensures exists i :: 0 <= i < |d.sent| && d.sent[i].version == DesiredVersionOf(d.shadow) &&
                        d.sent[i].props == d.issued[|d.issued| - 1].props
    ensures Increasing(d.sent) ==>
              var last := d.sent[|d.sent| - 1];
              last.version == DesiredVersionOf(d.shadow) && last.props == d.issued[|d.issued| - 1].props
  {
    var v := DesiredVersionOf(d.shadow);
    LatestWriteIsNewest(d);
    WindowKeepsLogOk(d.shadow.log, d.issued, d.counter);
    SinceIsFaithful(Window(d.shadow.log), id, v, v, d.issued, d.counter);
    var i := IndexOfVersion(d.sent, v);
    assert PropsAt(d.issued, v) == Some(d.issued[|d.issued| - 1].props);
    if Increasing(d.sent) {
      HighestOfIncreasing(d.sent);
    }
  }

  /** The device is at the stored desired version: the op of that version, with
      the props issued last, was received, and nothing is left to replay. */
  ghost predicate Converged(d: Device, id: string) {
    && d.handle.Some? && d.handle.value.lastDelivered == DesiredVersionOf(d.shadow)
    && ResumeOps(d, id) == [] && d.issued != []
    && (exists i :: 0 <= i < |d.sent| && IsLatest(d.sent[i], d))
    && (Increasing(d.sent) ==> d.sent != [] && IsLatest(d.sent[|d.sent| - 1], d))
  }

  /** This op has the stored desired version and the props issued last. */
  predicate IsLatest(op: DesiredOp, d: Device)
    requires d.issued != []
  {
    op.version == DesiredVersionOf(d.shadow) && op.props == d.issued[|d.issued| - 1].props
  }

  lemma ConvergesFrom(d: Device, id: string)
    requires Ok(d) && d.handle.Some? && DesiredVersionOf(d.shadow) > 0
    requires d.handle.value.lastDelivered == DesiredVersionOf(d.shadow)
    ensures Converged(d, id)
  {
    AtDesiredVersion(d, id);
    var i :| 0 <= i < |d.sent| && d.sent[i].version == DesiredVersionOf(d.shadow) &&
             d.sent[i].props == d.issued[|d.issued| - 1].props;
    assert IsLatest(d.sent[i], d);
  }

  // ---- Transactions that were put back ----

  /** What a failed transaction wrote, and the desired section it was put back to. */
  datatype Undo = Undo(written: Props, before: Props)

  /** What a step leaves to say: a write clears it, a transaction that fails sets it. */
  function UndoneBy(d: Device, step: Step, undone: Option<Undo>): Option<Undo> {
    match step
    case Transaction(props, _) =>
      if d.shadow.tombstone.Some? || IsConnected(d) then None else Some(Undo(props, DesiredOf(d.shadow)))
    case Writes(batch, _, _, _) => if batch == [] then undone else None
    case Delete(_) => None
    case _ => undone
  }

  /** The transaction that failed, when the latest write that the store took was one:
      its device was unknown or offline at the time. */
  function LastUndone(id: string, steps: seq<Step>): Option<Undo> {
    if steps == [] then None
    else UndoneBy(Run(id, steps[..|steps| - 1]), steps[|steps| - 1], LastUndone(id, steps[..|steps| - 1]))
  }

  ghost predicate Explained(d: Device, undone: Option<Undo>) {
    DesiredVersionOf(d.shadow) > 0 ==>
      && d.issued != []
      && match undone
         case None => DesiredOf(d.shadow) == d.issued[|d.issued| - 1].props
         case Some(u) => d.issued[|d.issued| - 1].props == u.written && DesiredOf(d.shadow) == u.before
  }

  lemma {:induction false} WritesAreExplained(d: Device, id: string, batch: seq<Props>, source: string, now: int)
    requires Ok(d) && batch != []
    ensures Explained(WriteAll(d, id, batch, source, now), None)
  {
    WriteAllKeepsOk(d, id, batch[..|batch| - 1], source, now);
    var before := WriteAll(d, id, batch[..|batch| - 1], source, now);
    WriteIsExplained(before, id, batch[|batch| - 1], source, now);
  }

  lemma WriteIsExplained(d: Device, id: string, props: Props, source: string, now: int)
    requires Ok(d)
    ensures Explained(Write(d, id, props, source, now).0, None)
    ensures Write(d, id, props, source, now).1 == IsConnected(d)
  {
    CommitKeepsDocOk(d.shadow, d.issued, DesiredOp(id, props, d.counter + 1, source), d.counter, now);
  }

  lemma TransactionIsExplained(d: Device, id: string, props: Props, now: int)
    requires Ok(d)
    ensures Explained(Transact(d, id, props, now), UndoneBy(d, Transaction(props, now), None))
  {
    WriteIsExplained(d, id, props, "transaction", now);
  }

  lemma ReplayIsExplained(d: Device, id: string, step: Step, undone: Option<Undo>)
    requires Explained(d, undone) && (step.Resume? || step.Reconcile?)
    ensures Explained(Apply(d, id, step), undone)
  {
    hide ResumeOps, ReconcileOps, DeliverAll;
    if d.handle.Some? {
      DeliverAllKeepsIssued(d, ResumeOps(d, id));
      DeliverAllKeepsIssued(Drained(d), ReconcileOps(d, id));
    }
  }

  lemma ReportIsExplained(d: Device, policy: Policy, op: ReportOp, now: int, undone: Option<Undo>)
    requires Ok(d) && Explained(d, undone)
    ensures Explained(TakeReport(d, policy, op, now), undone)
  {
    hide Increasing, Faithful, LogOk, HandleOk;
  }

  lemma StepIsExplained(d: Device, id: string, step: Step, undone: Option<Undo>)
    requires Ok(d) && Explained(d, undone)
    ensures Explained(Apply(d, id, step), UndoneBy(d, step, undone))
  {
    hide Ok, TakeReport, Transact, WriteAll, Replayed;
    match step
    case Writes(batch, source, partial, now) =>
      if batch != [] {
        WritesAreExplained(d, id, batch, source, now);
      } else {
        assert WriteAll(d, id, batch, source, now) == d by {
          NothingWritten(d, id, source, now);
        }
      }
    case Transaction(props, now) => TransactionIsExplained(d, id, props, now);
    case Report(props, baseVersion, clientID, policy, now) =>
      ReportIsExplained(d, policy, ReportOp(id, props, baseVersion, d.counter + 1, clientID), now, undone);
    case Resume(_) => ReplayIsExplained(d, id, step, undone);
    case Reconcile(_) => ReplayIsExplained(d, id, step, undone);
    case _ =>
  }

  lemma NothingWritten(d: Device, id: string, source: string, now: int)
    ensures WriteAll(d, id, [], source, now) == d
  {
  }

  lemma {:induction false} DeliverAllKeepsIssued(d: Device, ops: seq<DesiredOp>)
    ensures DeliverAll(d, ops).shadow == d.shadow && DeliverAll(d, ops).issued == d.issued
    decreases |ops|
  {
    if ops != [] && Deliver(d, ops[0]).1 {
      DeliverAllKeepsIssued(Deliver(d, ops[0]).0, ops[1..]);
    }
  }

  /** The stored desired section is what was issued last, unless that was a
      transaction that failed: then it is what stood before it. */
  lemma {:induction false} DesiredIsExplained(id: string, steps: seq<Step>)
    requires AllWellformed(steps)
    ensures Explained(Run(id, steps), LastUndone(id, steps))
  {
    if steps != [] {
      RunIsOk(id, steps[..|steps| - 1]);
      DesiredIsExplained(id, steps[..|steps| - 1]);
      StepIsExplained(Run(id, steps[..|steps| - 1]), id, steps[|steps| - 1], LastUndone(id, steps[..|steps| - 1]));
    }
  }

  lemma ReconnectedIsOk(id: string, steps: seq<Step>, now: int)
    requires AllWellformed(steps)
    ensures Ok(Run(id, steps)) && Ok(Reconnected(Run(id, steps), id, now))
    ensures NoReconcile(steps) ==> Increasing(Reconnected(Run(id, steps), id, now).sent)
  {
    var d := Run(id, steps);
    RunIsOk(id, steps);
    StepKeepsOk(d, id, SetOnline(true));
    StepKeepsOk(Apply(d, id, SetOnline(true)), id, Resume(now));
  }

  /** What the device received is what the store holds: no transaction failed
      since the latest write, or it had written what it was put back to. */
  predicate StandsAsWritten(id: string, steps: seq<Step>) {
    var undone := LastUndone(id, steps);
    undone.None? || undone.value.written == undone.value.before
  }

  lemma ReconnectKeeps(d: Device, id: string, now: int)
    ensures var after := Reconnected(d, id, now);
            after.shadow.doc == d.shadow.doc && after.issued == d.issued
  {
    hide ResumeOps, DeliverAll;
    var online := Apply(d, id, SetOnline(true));
    DeliverAllKeepsIssued(online, ResumeOps(online, id));
  }

  lemma LatestStands(d: Device, undone: Option<Undo>, op: DesiredOp)
    requires Explained(d, undone) && DesiredVersionOf(d.shadow) > 0 && d.issued != [] && IsLatest(op, d)
    ensures op.props == DesiredOf(d.shadow) <==> undone.None? || undone.value.written == undone.value.before
  {
  }

  /** Convergence. When the latest desired write was delivered or is still in
      the window, a reconnect brings the device to the stored desired version,
      and an immediate second resume replays nothing. The op it received with that
      version carries the stored desired section if and only if the latest write
      was no failed transaction, or one that changed nothing. In a run without a
      reconcile that op is the last one received. */
  lemma ReconnectConverges(id: string, steps: seq<Step>, now: int)
    requires AllWellformed(steps)
    requires var d := Run(id, steps); d.handle.Some? && DesiredVersionOf(d.shadow) > 0 && Reachable(d)
    ensures var d := Run(id, steps);
            var after := Reconnected(d, id, now);
            && after.shadow.doc == d.shadow.doc && after.issued == d.issued
            && Converged(after, id)
            && (forall i :: 0 <= i < |after.sent| && IsLatest(after.sent[i], after) ==>
                  (after.sent[i].props == DesiredOf(after.shadow) <==> StandsAsWritten(id, steps)))
            && (NoReconcile(steps) ==> Increasing(after.sent))
  {
    hide Ok, Reachable, LastUndone, Reconnected, Run, Increasing, IsLatest;
    var d := Run(id, steps);
    var after := Reconnected(d, id, now);
    ReconnectedIsOk(id, steps, now);
    ReconnectKeeps(d, id, now);
    ReconnectReachesDesired(d, id, now);
    ConvergesFrom(after, id);
    DesiredIsExplained(id, steps);
    forall i | 0 <= i < |after.sent| && IsLatest(after.sent[i], after)
      ensures after.sent[i].props == DesiredOf(after.shadow) <==> StandsAsWritten(id, steps)
    {
      LatestStands(after, LastUndone(id, steps), after.sent[i]);
    }
  }

  // ---- Rollback ----

  /** A transaction is all or nothing: delivered, it replaces the desired
      section; otherwise the section is as it was before. Either way the reported
      section stays and the desired and overall versions rise. */
  lemma TransactionIsAllOrNothing(id: string, steps: seq<Step>, props: Props, now: int)
    requires AllWellformed(steps) && Run(id, steps).shadow.tombstone.None?
    ensures var d := Run(id, steps);
            var after := Apply(d, id, Transaction(props, now));
            var delivered := d.handle.Some? && d.handle.value.online;
            && after.shadow.doc.Some?
            && after.sent == d.sent + (if delivered then [DesiredOp(id, props, after.counter, "transaction")] else [])
            && var old_, new_ := Ensured(d.shadow, id, now), after.shadow.doc.value;
               && new_.desired == (if delivered then props else old_.desired)
               && new_.reported == old_.reported && new_.reportedVersion == old_.reportedVersion
               && new_.desiredVersion == new_.version == after.counter > old_.version
               && new_.state == (if !delivered && old_.desired == map[] then Synced else Stale)
  {
    RunIsOk(id, steps);
  }

  // ---- Reconcile ----

  /** A cached op and a desired event of the same version carry the same props,
      so keeping the cached one loses nothing. */
  lemma CacheAgreesWithHistory(id: string, steps: seq<Step>, i: int, k: int)
    requires AllWellformed(steps)
    requires var d := Run(id, steps);
             && d.handle.Some? && 0 <= i < |d.handle.value.cache|
             && 0 <= k < |d.shadow.log| && d.shadow.log[k].kind.EventDesired?
             && d.handle.value.cache[i].version == d.shadow.log[k].version
    ensures var d := Run(id, steps);
            && d.shadow.log[k].snapshot.Some?
            && d.handle.value.cache[i].props == d.shadow.log[k].snapshot.value.desired
  {
    RunIsOk(id, steps);
  }

  /** An online reconcile delivers its plan, each version once, empties the
      cache and moves the watermark to the highest version of the plan. */
  lemma ReconcileDeliversPlan(d: Device, id: string, now: int)
    requires Ok(d) && d.handle.Some? && d.handle.value.online
    ensures var plan := ReconcileOps(d, id);
            var after := Apply(d, id, Reconcile(now));
            && after.handle.Some? && after.handle.value.cache == []
            && after.issued == d.issued && after.sent == d.sent + plan
            && (forall i, j :: 0 <= i < j < |plan| ==> plan[i].version != plan[j].version)
            && Versions(plan) == Versions(d.handle.value.cache + OnlineOps(d, id))
            && after.handle.value.lastDelivered == MaxVersion(d.handle.value.lastDelivered, Highest(plan))
  {
    hide Plan, OnlineOps, DeliverAll, LogOk, DocOk, Faithful, Versions, FirstIndex;
    DeliverAllOnline(Drained(d), ReconcileOps(d, id));
    PlanKeepsFirstOccurrences(d.handle.value.cache + OnlineOps(d, id));
  }

  lemma IncreasingConcat(a: seq<DesiredOp>, b: seq<DesiredOp>)
    ensures Increasing(a + b) <==>
              Increasing(a) && Increasing(b) && (a != [] && b != [] ==> a[|a| - 1].version < b[0].version)
  {
    var ops := a + b;
    if Increasing(ops) {
      forall i, j | 0 <= i < j < |b| ensures b[i].version < b[j].version {
        assert ops[|a| + i] == b[i] && ops[|a| + j] == b[j];
      }
      forall i, j | 0 <= i < j < |a| ensures a[i].version < a[j].version {
        assert ops[i] == a[i] && ops[j] == a[j];
      }
      assert a != [] && b != [] ==> ops[|a| - 1] == a[|a| - 1] && ops[|a|] == b[0];
    }
    if Increasing(a) && Increasing(b) && (a != [] && b != [] ==> a[|a| - 1].version < b[0].version) {
      forall i, j | 0 <= i < j < |ops| ensures ops[i].version < ops[j].version {
        if i < |a| <= j {
          assert a[i].version <= a[|a| - 1].version && b[0].version <= b[j - |a|].version;
        } else if |a| <= i {
          assert b[i - |a|].version < b[j - |a|].version;
        }
      }
    }
  }

  /** An online reconcile keeps delivery in order exactly when its plan is in
      version order and starts above the delivery watermark. */
  lemma OrderOfPlan(d: Device, id: string, now: int)
    requires Ok(d) && IsConnected(d) && Increasing(d.sent)
    ensures Increasing(Apply(d, id, Reconcile(now)).sent) <==>
              var plan := ReconcileOps(d, id);
              Increasing(plan) && (plan != [] ==> plan[0].version > d.handle.value.lastDelivered)
  {
    ReconcileDeliversPlan(d, id, now);
    HighestOfIncreasing(d.sent);
    IncreasingConcat(d.sent, ReconcileOps(d, id));
    OnlineOpsAreFaithful(d, id);
    PlanIsFaithful(d.handle.value.cache + OnlineOps(d, id), d.issued, d.counter);
  }

  /** A reconcile while offline delivers nothing, and of its plan the cache
      keeps the first op only. */
  lemma OfflineReconcileKeepsFirst(d: Device, id: string, now: int)
    requires d.handle.Some? && !d.handle.value.online
    ensures var plan, after := ReconcileOps(d, id), Apply(d, id, Reconcile(now));
            && after.sent == d.sent
            && after.handle.Some?
            && after.handle.value.lastDelivered == d.handle.value.lastDelivered
            && after.handle.value.cache == if plan == [] then [] else [plan[0]]
  {
  }

  // ---- What a rollback does not undo ----

  /** Where the op of a transaction is kept: in the cache exactly when its device is
      registered and offline, in the history exactly when the shadow is not tombstoned. */
  lemma TransactionIsKept(id: string, steps: seq<Step>, props: Props, now: int)
    requires AllWellformed(steps)
    ensures var d := Run(id, steps);
            var after := Apply(d, id, Transaction(props, now));
            && (after.handle.Some? && after.counter in Versions(after.handle.value.cache)
                <==> d.handle.Some? && !IsConnected(d))
            && (HasWrite(Window(after.shadow.log), after.counter) <==> d.shadow.tombstone.None?)
  {
    hide Run, Write, Window, HasWrite, Ok;
    var d := Run(id, steps);
    RunIsOk(id, steps);
    NotCachedYet(d);
    WriteKeepsHistory(d, id, props, "transaction", now);
    var h := Apply(d, id, Transaction(props, now)).handle;
    if d.handle.Some? && !IsConnected(d) {
      VersionOfIndex(h.value.cache, |h.value.cache| - 1);
    }
  }

  lemma RunOneMore(id: string, steps: seq<Step>, step: Step)
    ensures Run(id, steps + [step]) == Apply(Run(id, steps), id, step)
    ensures (steps + [step])[..|steps + [step]| - 1] == steps
  {
    assert (steps + [step])[..|steps|] == steps;
  }

  /** And where it ends: the reconnect that the server performs always hands it
      over as the last op, at the stored desired version. So the device then holds
      the stored desired section if and only if it was connected when the transaction
      ran, or the transaction wrote what was stored before. */
  lemma TransactionReachesDevice(id: string, steps: seq<Step>, props: Props, now: int, later: int)
    requires AllWellformed(steps) && NoReconcile(steps)
    requires var d := Run(id, steps); d.handle.Some? && d.shadow.tombstone.None?
    ensures var d := Run(id, steps);
            var after := Reconnected(Apply(d, id, Transaction(props, now)), id, later);
            && after.sent != []
            && var last := after.sent[|after.sent| - 1];
               && last.version == d.counter + 1 == DesiredVersionOf(after.shadow)
               && last.props == props
               && (last.props == DesiredOf(after.shadow) <==> IsConnected(d) || props == DesiredOf(d.shadow))
  {
    hide Ok, Window, HasWrite, Increasing;
    var d, all := Run(id, steps), steps + [Transaction(props, now)];
    RunOneMore(id, steps, Transaction(props, now));
    TransactionIsAllOrNothing(id, steps, props, now);
    TransactionIsKept(id, steps, props, now);
    RunIsOk(id, steps);
    CounterAfterTransaction(d, id, props, now);
    assert DesiredVersionOf(Run(id, all).shadow) == d.counter + 1 > 0 by {
      CounterIsNatural(d);
    }
    ReconnectConverges(id, all, later);
  }

  lemma CounterIsNatural(d: Device)
    requires Ok(d)
    ensures d.counter >= 0
  {
  }

  lemma CounterAfterTransaction(d: Device, id: string, props: Props, now: int)
    ensures var after := Apply(d, id, Transaction(props, now));
            && after.counter == d.counter + 1 && (after.handle.Some? <==> d.handle.Some?)
            && after.issued == d.issued + [DesiredOp(id, props, d.counter + 1, "transaction")]
  {
  }

  lemma NotCachedYet(d: Device)
    requires Ok(d)
    ensures d.handle.Some? ==> d.counter + 1 !in Versions(d.handle.value.cache)
    ensures !HasWrite(Window(d.shadow.log), d.counter + 1)
  {
    if d.handle.Some? && d.counter + 1 in Versions(d.handle.value.cache) {
      var i := IndexOfVersion(d.handle.value.cache, d.counter + 1);
    }
    WindowKeepsLogOk(d.shadow.log, d.issued, d.counter);
  }

  lemma WriteKeepsHistory(d: Device, id: string, props: Props, source: string, now: int)
    requires Ok(d) && !HasWrite(Window(d.shadow.log), d.counter + 1)
    ensures var after := Write(d, id, props, source, now).0;
            && after.counter == d.counter + 1
            && (HasWrite(Window(after.shadow.log), after.counter) <==> d.shadow.tombstone.None?)
            && (d.handle.Some? && !IsConnected(d) ==>
                  && after.handle.Some? && after.handle.value.cache != []
                  && after.handle.value.cache[|after.handle.value.cache| - 1].version == after.counter)
            && (d.handle.None? || IsConnected(d) ==>
                  (after.handle.Some? <==> d.handle.Some?) &&
                  (d.handle.Some? ==> after.handle.value.cache == d.handle.value.cache))
  {
    CommitKeepsDocOk(d.shadow, d.issued, DesiredOp(id, props, d.counter + 1, source), d.counter, now);
    var log := Write(d, id, props, source, now).0.shadow.log;
    if d.shadow.tombstone.None? {
      assert Window(log)[|Window(log)| - 1] == log[|log| - 1];
    }
  }

  /** A transaction that failed because its device was offline is rolled back in
      the store, but its op stays in the cache: the next reconcile delivers it. */
  lemma RolledBackWriteIsDelivered(id: string, steps: seq<Step>, props: Props, now: int, later: int)
    requires AllWellformed(steps)
    requires var d := Run(id, steps); d.handle.Some? && !d.handle.value.online
    ensures var d := Run(id, steps);
            var failed := Apply(d, id, Transaction(props, now));
            var after := Apply(Apply(failed, id, SetOnline(true)), id, Reconcile(later));
            && after.shadow.doc == failed.shadow.doc
            && exists i :: |d.sent| <= i < |after.sent| &&
                           after.sent[i].version == failed.counter && after.sent[i].props == props
  {
    hide Ok, Run, OnlineOps, Plan, DeliverAll, CommitDesired, Restored;
    var d := Run(id, steps);
    var failed := Apply(d, id, Transaction(props, now));
    var back := Apply(failed, id, SetOnline(true));
    RunIsOk(id, steps);
    StepKeepsOk(d, id, Transaction(props, now));
    StepKeepsOk(failed, id, SetOnline(true));
    StepKeepsOk(back, id, Reconcile(later));
    BacklogIsDelivered(back, id, later, |back.handle.value.cache| - 1);
    DeliverAllKeepsShadow(Drained(back), ReconcileOps(back, id));
  }

  /** An online reconcile delivers the issued props of every version in the cache. */
  lemma BacklogIsDelivered(d: Device, id: string, now: int, k: nat)
    requires Ok(d) && d.handle.Some? && d.handle.value.online && k < |d.handle.value.cache|
    ensures var after, op := Apply(d, id, Reconcile(now)), d.handle.value.cache[k];
            exists i :: |d.sent| <= i < |after.sent| && after.sent[i].version == op.version && after.sent[i].props == op.props
  {
    hide LogOk, DocOk, Plan, OnlineOps, Highest;
    var plan, op := ReconcileOps(d, id), d.handle.value.cache[k];
    ReconcileDeliversPlan(d, id, now);
    ReconcileKeepsOk(d, id, now);
    VersionsOfConcat(d.handle.value.cache, OnlineOps(d, id));
    VersionOfIndex(d.handle.value.cache, k);
    var i := IndexOfVersion(plan, op.version);
    var after := Apply(d, id, Reconcile(now));
    assert after.sent[|d.sent| + i] == plan[i];
  }
}
