/** The life of one device: its version counter, its shadow in the store, its
    handle in the registry, and two logs that the service does not keep but
    that say what happened: the desired ops issued and the ops delivered. */
module Machine {
  import opened Model
  import opened Conflict
  import opened Shadow
  import opened Handles
  import opened Replay

  datatype Device = Device(
    counter: int,
    shadow: Shadow,
    handle: Option<Handle>,
    issued: seq<DesiredOp>,
    sent: seq<DesiredOp>)

  const NEW_DEVICE := Device(0, EMPTY, None, [], [])

  /** What one service call does to one device. */
  datatype Step =
    | Writes(batch: seq<Props>, source: string, partial: bool, now: int)
    | Transaction(props: Props, now: int)
    | Report(props: Props, baseVersion: int, clientID: string, policy: Policy, now: int)
    | Delete(now: int)
    | Collect(cutoff: int)
    | Register
    | SetOnline(online: bool)
    | Resume(now: int)
    | Reconcile(now: int)

  // ---- Steps ----

  /** Pushes an op to the device, or to its cache when it is offline. */
  function Deliver(d: Device, op: DesiredOp): (Device, bool) {
    if d.handle.None? then (d, false)
    else if !d.handle.value.online then (d.(handle := Some(Cached(d.handle.value, op))), false)
    else (d.(handle := Some(Delivered(d.handle.value, op.version)), sent := d.sent + [op]), true)
  }

  /** Delivers in order, up to the first failure. */
  function DeliverAll(d: Device, ops: seq<DesiredOp>): Device
    decreases |ops|
  {
    if ops == [] then d
    else
      var (next, ok) := Deliver(d, ops[0]);
      if ok then DeliverAll(next, ops[1..]) else next
  }

  /** The service can deliver to this device right now. */
  predicate IsConnected(d: Device) {
    d.handle.Some? && d.handle.value.online
  }

  function Issue(d: Device, op: DesiredOp, now: int): Device {
    d.(counter := op.version, shadow := CommitDesired(d.shadow, op, now), issued := d.issued + [op])
  }

  /** One desired write: allocate a version, commit to the store, deliver. */
  function Write(d: Device, id: string, props: Props, source: string, now: int): (Device, bool) {
    var op := DesiredOp(id, props, d.counter + 1, source);
    Deliver(Issue(d, op, now), op)
  }

  function WriteAll(d: Device, id: string, batch: seq<Props>, source: string, now: int): Device {
    if batch == [] then d
    else Write(WriteAll(d, id, batch[..|batch| - 1], source, now), id, batch[|batch| - 1], source, now).0
  }

  function DesiredOf(s: Shadow): Props {
    if s.doc.None? then map[] else s.doc.value.desired
  }

  function DesiredVersionOf(s: Shadow): int {
    if s.doc.None? then 0 else s.doc.value.desiredVersion
  }

  /** A write that is rolled back in the store when it was not delivered. */
  function Transact(d: Device, id: string, props: Props, now: int): Device {
    var (written, ok) := Write(d, id, props, "transaction", now);
    if ok then written
    else written.(shadow := Restored(written.shadow, DesiredOf(d.shadow), DesiredVersionOf(written.shadow), now))
  }

  /** The writes in the history window that are newer than the delivery watermark. */
  function OnlineOps(d: Device, id: string): seq<DesiredOp>
    requires d.handle.Some?
  {
    DesiredSince(Window(d.shadow.log), id, d.handle.value.lastDelivered)
  }

  function ResumeOps(d: Device, id: string): seq<DesiredOp> {
    if d.handle.None? then [] else OnlineOps(d, id)
  }

  function ReconcileOps(d: Device, id: string): seq<DesiredOp> {
    if d.handle.None? then [] else Plan(d.handle.value.cache + OnlineOps(d, id))
  }

  function TakeReport(d: Device, policy: Policy, op: ReportOp, now: int): Device {
    d.(counter := op.version, shadow := CommitReport(d.shadow, policy, op, now))
  }

  function Replayed(d: Device, id: string, ops: seq<DesiredOp>, now: int): Device {
    var after := DeliverAll(d, ops);
    after.(shadow := Published(after.shadow, id, now))
  }

  function Drained(d: Device): Device
    requires d.handle.Some?
  {
    d.(handle := Some(d.handle.value.(cache := [])))
  }

  function Apply(d: Device, id: string, step: Step): Device {
    match step
    case Writes(batch, source, partial, now) =>
      var after := WriteAll(d, id, batch, source, now);
      if partial then after.(shadow := WithState(after.shadow, Stale, now)) else after
    case Transaction(props, now) => Transact(d, id, props, now)
    case Report(props, baseVersion, clientID, policy, now) =>
      TakeReport(d, policy, ReportOp(id, props, baseVersion, d.counter + 1, clientID), now)
    case Delete(now) => d.(shadow := CommitDelete(d.shadow, id, now))
    case Collect(cutoff) => d.(shadow := CollectTombstone(d.shadow, cutoff))
    case Register => if d.handle.Some? then d else d.(handle := Some(REGISTERED))
    case SetOnline(online) =>
      if d.handle.None? then d else d.(handle := Some(d.handle.value.(online := online)))
    case Resume(now) => if d.handle.None? then d else Replayed(d, id, ResumeOps(d, id), now)
    case Reconcile(now) => if d.handle.None? then d else Replayed(Drained(d), id, ReconcileOps(d, id), now)
  }

  function ApplyAll(d: Device, id: string, steps: seq<Step>): Device {
    if steps == [] then d
    else Apply(ApplyAll(d, id, steps[..|steps| - 1]), id, steps[|steps| - 1])
  }

  /** The device after a run of the service. */
  function Run(id: string, steps: seq<Step>): Device {
    ApplyAll(NEW_DEVICE, id, steps)
  }

  lemma {:induction false} ApplyAllConcat(d: Device, id: string, first: seq<Step>, second: seq<Step>)
    ensures ApplyAll(d, id, first + second) == ApplyAll(ApplyAll(d, id, first), id, second)
  {
    var steps := first + second;
    if second == [] {
      assert steps == first;
    } else {
      assert steps[..|steps| - 1] == first + second[..|second| - 1];
      ApplyAllConcat(d, id, first, second[..|second| - 1]);
    }
  }

  /** Only a batch that wrote to the device marks it as part of a partial batch. */
  predicate Wellformed(step: Step) {
    step.Writes? && step.partial ==> step.batch != []
  }

  ghost predicate AllWellformed(steps: seq<Step>) {
    forall i :: 0 <= i < |steps| ==> Wellformed(steps[i])
  }

  // ---- The invariant of every run ----

  /** The props issued with a version. */
  function PropsAt(issued: seq<DesiredOp>, version: int): Option<Props> {
    if issued == [] then None
    else
      var last := issued[|issued| - 1];
      if last.version == version then Some(last.props) else PropsAt(issued[..|issued| - 1], version)
  }

  /** Every op of `ops` carries the props that were issued with its version. */
  ghost predicate Faithful(ops: seq<DesiredOp>, issued: seq<DesiredOp>, counter: int) {
    forall i :: 0 <= i < |ops| ==>
      1 <= ops[i].version <= counter && PropsAt(issued, ops[i].version) == Some(ops[i].props)
  }

  /** Desired events carry the version and full props of their op, in version order. */
  ghost predicate LogOk(log: seq<Event>, issued: seq<DesiredOp>, counter: int) {
    && (forall i :: 0 <= i < |log| && log[i].kind.EventDesired? ==>
          && 1 <= log[i].version <= counter
          && log[i].snapshot.Some?
          && PropsAt(issued, log[i].version) == Some(log[i].snapshot.value.desired))
    && (forall i, j :: 0 <= i < j < |log| && log[i].kind.EventDesired? && log[j].kind.EventDesired? ==>
          log[i].version < log[j].version)
  }

  /** The state of a stored document says how its section versions compare. */
  predicate LifecycleOk(doc: Doc) {
    match doc.state
    case Created => doc.version == 0 && doc.desired == map[] && doc.reported == map[]
    case Stale => doc.desiredVersion > doc.reportedVersion
    case Synced => doc.version > 0 && (doc.reportedVersion > doc.desiredVersion || doc.desired == map[])
    case Deleted => false
  }

  predicate DocOk(s: Shadow, issued: seq<DesiredOp>, counter: int) {
    s.doc.Some? ==>
      var doc := s.doc.value;
      && s.tombstone.None?
      && 0 <= doc.desiredVersion && 0 <= doc.reportedVersion
      && WatermarkOk(doc) && doc.version <= counter
      && (doc.desiredVersion == doc.reportedVersion ==> doc.version == 0)
      && LifecycleOk(doc)
      && (doc.desiredVersion == 0 ==> doc.desired == map[])
      && (doc.desiredVersion > 0 ==>
            && issued != []
            && issued[|issued| - 1].version == doc.desiredVersion)
  }

  ghost predicate HandleOk(d: Device) {
    && Faithful(d.sent, d.issued, d.counter)
    && (d.handle.None? ==> d.sent == [])
    && (d.handle.Some? ==>
          && Faithful(d.handle.value.cache, d.issued, d.counter)
          && d.handle.value.lastDelivered == Highest(d.sent)
          && d.handle.value.lastDelivered <= d.counter)
  }

  /** What every sequence of service calls keeps true of a device. */
  ghost predicate Ok(d: Device) {
    && 0 <= d.counter
    && Increasing(d.issued)
    && Faithful(d.issued, d.issued, d.counter)
    && LogOk(d.shadow.log, d.issued, d.counter)
    && DocOk(d.shadow, d.issued, d.counter)
    && HandleOk(d)
  }

  lemma FaithfulGrows(ops: seq<DesiredOp>, issued: seq<DesiredOp>, op: DesiredOp, counter: int)
    requires Faithful(ops, issued, counter) && op.version > counter
    ensures Faithful(ops, issued + [op], op.version)
  {
    assert (issued + [op])[..|issued|] == issued;
  }

  lemma FaithfulAppend(ops: seq<DesiredOp>, op: DesiredOp, issued: seq<DesiredOp>, counter: int)
    requires Faithful(ops, issued, counter) && Faithful([op], issued, counter)
    ensures Faithful(ops + [op], issued, counter)
  {
    assert [op][0] == op;
  }

  lemma LogGrows(log: seq<Event>, issued: seq<DesiredOp>, op: DesiredOp, counter: int)
    requires LogOk(log, issued, counter) && op.version > counter
    ensures LogOk(log, issued + [op], op.version)
  {
    assert (issued + [op])[..|issued|] == issued;
  }

  lemma CommitKeepsDocOk(s: Shadow, issued: seq<DesiredOp>, op: DesiredOp, counter: int, now: int)
    requires DocOk(s, issued, counter) && 0 <= counter < op.version
    ensures DocOk(CommitDesired(s, op, now), issued + [op], op.version)
    ensures s.tombstone.None? ==>
              var after := CommitDesired(s, op, now);
              && after.doc.Some?
              && after.doc.value.desiredVersion == after.doc.value.version == op.version
              && after.doc.value.desiredVersion > after.doc.value.reportedVersion
              && after.doc.value.desired == op.props
  {
  }

  lemma CommitKeepsLogOk(s: Shadow, issued: seq<DesiredOp>, op: DesiredOp, counter: int, now: int)
    requires LogOk(s.log, issued, counter) && DocOk(s, issued, counter) && 0 <= counter < op.version
    ensures LogOk(CommitDesired(s, op, now).log, issued + [op], op.version)
  {
    LogGrows(s.log, issued, op, counter);
    CommitKeepsDocOk(s, issued, op, counter, now);
    if s.tombstone.None? {
      assert (issued + [op])[|issued|] == op;
    }
  }

  lemma IssuedGrows(issued: seq<DesiredOp>, op: DesiredOp, counter: int)
    requires Increasing(issued) && Faithful(issued, issued, counter) && 0 <= counter < op.version
    ensures Increasing(issued + [op]) && Faithful(issued + [op], issued + [op], op.version)
    ensures Faithful([op], issued + [op], op.version)
  {
    FaithfulGrows(issued, issued, op, counter);
  }

  lemma IssueKeepsOk(d: Device, op: DesiredOp, now: int)
    requires Ok(d) && op.version == d.counter + 1
    ensures Ok(Issue(d, op, now))
    ensures Faithful([op], Issue(d, op, now).issued, op.version)
  {
    IssuedGrows(d.issued, op, d.counter);
    CommitKeepsLogOk(d.shadow, d.issued, op, d.counter, now);
    CommitKeepsDocOk(d.shadow, d.issued, op, d.counter, now);
    FaithfulGrows(d.sent, d.issued, op, d.counter);
    if d.handle.Some? {
      FaithfulGrows(d.handle.value.cache, d.issued, op, d.counter);
    }
  }

  lemma {:induction false} HighestOfIncreasing(ops: seq<DesiredOp>)
    requires Increasing(ops) && (forall i :: 0 <= i < |ops| ==> ops[i].version > 0)
    ensures Highest(ops) == if ops == [] then 0 else ops[|ops| - 1].version
  {
    if ops != [] {
      HighestOfIncreasing(ops[..|ops| - 1]);
    }
  }

  lemma DeliverKeepsOk(d: Device, op: DesiredOp)
    requires Ok(d) && Faithful([op], d.issued, d.counter)
    ensures Ok(Deliver(d, op).0)
  {
    hide LogOk, DocOk, Increasing, PropsAt;
    assert [op][0] == op;
    FaithfulAppend(d.sent, op, d.issued, d.counter);
    assert (d.sent + [op])[..|d.sent|] == d.sent;
    if d.handle.Some? {
      FaithfulAppend(d.handle.value.cache, op, d.issued, d.counter);
    }
  }

  lemma DeliverKeepsOrder(d: Device, op: DesiredOp)
    requires Ok(d) && Increasing(d.sent)
    requires d.handle.Some? ==> op.version > d.handle.value.lastDelivered
    ensures Increasing(Deliver(d, op).0.sent)
  {
    forall i | 0 <= i < |d.sent| ensures d.sent[i].version <= Highest(d.sent) {
      VersionOfIndex(d.sent, i);
    }
  }

  lemma {:induction false} DeliverAllKeepsOk(d: Device, ops: seq<DesiredOp>)
    requires Ok(d) && Faithful(ops, d.issued, d.counter)
    ensures Ok(DeliverAll(d, ops))
    ensures DeliverAll(d, ops).shadow == d.shadow && DeliverAll(d, ops).handle.Some? == d.handle.Some?
    decreases |ops|
  {
    if ops != [] {
      DeliverKeepsOk(d, ops[0]);
      var (next, ok) := Deliver(d, ops[0]);
      if ok {
        DeliverAllKeepsOk(next, ops[1..]);
      }
    }
  }

  lemma {:induction false} DeliverAllKeepsOrder(d: Device, ops: seq<DesiredOp>)
    requires Ok(d) && Increasing(d.sent) && Faithful(ops, d.issued, d.counter) && Increasing(ops)
    requires d.handle.Some? ==> forall i :: 0 <= i < |ops| ==> ops[i].version > d.handle.value.lastDelivered
    ensures Increasing(DeliverAll(d, ops).sent)
    decreases |ops|
  {
    if ops != [] {
      DeliverKeepsOk(d, ops[0]);
      DeliverKeepsOrder(d, ops[0]);
      var (next, ok) := Deliver(d, ops[0]);
      if ok {
        DeliverAllKeepsOrder(next, ops[1..]);
      }
    }
  }

  /** Some desired event of `events` has this version. */
  ghost predicate HasWrite(events: seq<Event>, version: int) {
    exists i :: 0 <= i < |events| && events[i].kind.EventDesired? && events[i].version == version
  }

  ghost predicate WritesUpTo(events: seq<Event>, top: int) {
    forall i :: 0 <= i < |events| && events[i].kind.EventDesired? ==> events[i].version <= top
  }

  /** The writes newer than a watermark are issued ops, in version order. */
  lemma {:induction false} SinceIsFaithful(
      events: seq<Event>, id: string, watermark: int, top: int, issued: seq<DesiredOp>, counter: int)
    requires LogOk(events, issued, counter) && WritesUpTo(events, top)
    ensures var ops := DesiredSince(events, id, watermark);
            && Faithful(ops, issued, counter)
            && Increasing(ops)
            && (forall i :: 0 <= i < |ops| ==> watermark < ops[i].version <= top)
            && (top <= watermark ==> ops == [])
  {
    if events != [] {
      var last := |events| - 1;
      var below := if events[last].kind.EventDesired? then events[last].version - 1 else top;
      SinceIsFaithful(events[..last], id, watermark, below, issued, counter);
    }
  }

  /** They end at the newest write, when that is newer than the watermark. */
  lemma {:induction false} SinceEndsAtNewest(
      events: seq<Event>, id: string, watermark: int, top: int, issued: seq<DesiredOp>, counter: int)
    requires LogOk(events, issued, counter) && WritesUpTo(events, top)
    requires HasWrite(events, top) && top > watermark
    ensures var ops := DesiredSince(events, id, watermark);
            ops != [] && ops[|ops| - 1].version == top
  {
    var last := |events| - 1;
    var i :| 0 <= i < |events| && events[i].kind.EventDesired? && events[i].version == top;
    if i < last {
      assert !events[last].kind.EventDesired?;
      assert events[..last][i] == events[i];
      SinceEndsAtNewest(events[..last], id, watermark, top, issued, counter);
    }
  }

  lemma WindowKeepsLogOk(log: seq<Event>, issued: seq<DesiredOp>, counter: int)
    requires LogOk(log, issued, counter)
    ensures LogOk(Window(log), issued, counter) && WritesUpTo(Window(log), counter)
  {
  }

  lemma OnlineOpsAreFaithful(d: Device, id: string)
    requires Ok(d) && d.handle.Some?
    ensures var ops := OnlineOps(d, id);
            && Faithful(ops, d.issued, d.counter) && Increasing(ops)
            && forall i :: 0 <= i < |ops| ==> ops[i].version > d.handle.value.lastDelivered
  {
    WindowKeepsLogOk(d.shadow.log, d.issued, d.counter);
    SinceIsFaithful(Window(d.shadow.log), id, d.handle.value.lastDelivered, d.counter, d.issued, d.counter);
  }

  lemma {:induction false} PlanIsFaithful(ops: seq<DesiredOp>, issued: seq<DesiredOp>, counter: int)
    requires Faithful(ops, issued, counter)
    ensures Faithful(Plan(ops), issued, counter)
  {
    if ops != [] {
      PlanIsFaithful(ops[..|ops| - 1], issued, counter);
    }
  }

  // ---- Every step keeps the invariant ----

  lemma {:induction false} WriteAllKeepsOk(d: Device, id: string, batch: seq<Props>, source: string, now: int)
    requires Ok(d)
    ensures Ok(WriteAll(d, id, batch, source, now))
    ensures Increasing(d.sent) ==> Increasing(WriteAll(d, id, batch, source, now).sent)
    ensures var after := WriteAll(d, id, batch, source, now);
            batch != [] && after.shadow.doc.Some? ==>
              after.shadow.doc.value.desiredVersion > after.shadow.doc.value.reportedVersion
  {
    if batch != [] {
      WriteAllKeepsOk(d, id, batch[..|batch| - 1], source, now);
      var before, last := WriteAll(d, id, batch[..|batch| - 1], source, now), batch[|batch| - 1];
      WriteKeepsOk(before, id, last, source, now);
      WriteLeavesStale(before, id, last, source, now);
      if Increasing(before.sent) {
        WriteKeepsOrder(before, id, last, source, now);
      }
    }
  }

  lemma WriteKeepsOk(d: Device, id: string, props: Props, source: string, now: int)
    requires Ok(d)
    ensures Ok(Write(d, id, props, source, now).0)
  {
    var op := DesiredOp(id, props, d.counter + 1, source);
    IssueKeepsOk(d, op, now);
    DeliverKeepsOk(Issue(d, op, now), op);
  }

  lemma WriteKeepsOrder(d: Device, id: string, props: Props, source: string, now: int)
    requires Ok(d) && Increasing(d.sent)
    ensures Increasing(Write(d, id, props, source, now).0.sent)
  {
    var op := DesiredOp(id, props, d.counter + 1, source);
    IssueKeepsOk(d, op, now);
    DeliverKeepsOrder(Issue(d, op, now), op);
  }

  lemma WriteLeavesStale(d: Device, id: string, props: Props, source: string, now: int)
    requires Ok(d)
    ensures var s := Write(d, id, props, source, now).0.shadow;
            s.doc.Some? ==> s.doc.value.desiredVersion > s.doc.value.reportedVersion
  {
    CommitKeepsDocOk(d.shadow, d.issued, DesiredOp(id, props, d.counter + 1, source), d.counter, now);
  }

  lemma TransactKeepsOk(d: Device, id: string, props: Props, now: int)
    requires Ok(d)
    ensures Ok(Transact(d, id, props, now))
    ensures Increasing(d.sent) ==> Increasing(Transact(d, id, props, now).sent)
  {
    WriteKeepsOk(d, id, props, "transaction", now);
    WriteLeavesStale(d, id, props, "transaction", now);
    if Increasing(d.sent) {
      WriteKeepsOrder(d, id, props, "transaction", now);
    }
  }

  lemma ReportKeepsDocOk(s: Shadow, policy: Policy, op: ReportOp, issued: seq<DesiredOp>, counter: int, now: int)
    requires DocOk(s, issued, counter) && 0 <= counter < op.version
    ensures DocOk(CommitReport(s, policy, op, now), issued, op.version)
  {
  }

  lemma ReportKeepsLogOk(s: Shadow, policy: Policy, op: ReportOp, issued: seq<DesiredOp>, counter: int, now: int)
    requires LogOk(s.log, issued, counter) && counter < op.version
    ensures LogOk(CommitReport(s, policy, op, now).log, issued, op.version)
  {
    var log := CommitReport(s, policy, op, now).log;
    assert log == s.log || (log[..|s.log|] == s.log && |log| == |s.log| + 1 && log[|s.log|].kind.EventReport?);
  }

  lemma ReportKeepsOk(d: Device, policy: Policy, op: ReportOp, now: int)
    requires Ok(d) && op.version == d.counter + 1
    ensures Ok(TakeReport(d, policy, op, now))
  {
    ReportKeepsDocOk(d.shadow, policy, op, d.issued, d.counter, now);
    ReportKeepsLogOk(d.shadow, policy, op, d.issued, d.counter, now);
  }

  lemma ReplayedKeepsOk(d: Device, id: string, ops: seq<DesiredOp>, now: int)
    requires Ok(d) && Faithful(ops, d.issued, d.counter)
    ensures Ok(Replayed(d, id, ops, now))
  {
    DeliverAllKeepsOk(d, ops);
  }

  lemma ReconcileKeepsOk(d: Device, id: string, now: int)
    requires Ok(d)
    ensures Ok(Apply(d, id, Reconcile(now)))
  {
    if d.handle.Some? {
      OnlineOpsAreFaithful(d, id);
      var ops := d.handle.value.cache + OnlineOps(d, id);
      PlanIsFaithful(ops, d.issued, d.counter);
      ReplayedKeepsOk(Drained(d), id, Plan(ops), now);
    }
  }

  lemma ResumeKeepsOk(d: Device, id: string, now: int)
    requires Ok(d)
    ensures Ok(Apply(d, id, Resume(now)))
    ensures Increasing(d.sent) ==> Increasing(Apply(d, id, Resume(now)).sent)
  {
    if d.handle.Some? {
      OnlineOpsAreFaithful(d, id);
      ReplayedKeepsOk(d, id, OnlineOps(d, id), now);
      if Increasing(d.sent) {
        DeliverAllKeepsOrder(d, OnlineOps(d, id));
      }
    }
  }

  lemma WritesKeepOk(d: Device, id: string, step: Step)
    requires Ok(d) && step.Writes? && Wellformed(step)
    ensures Ok(Apply(d, id, step))
    ensures Increasing(d.sent) ==> Increasing(Apply(d, id, step).sent)
  {
    WriteAllKeepsOk(d, id, step.batch, step.source, step.now);
  }

  lemma RegistryStepKeepsOk(d: Device, id: string, step: Step)
    requires Ok(d) && (step.Register? || step.SetOnline?)
    ensures Ok(Apply(d, id, step))
    ensures Apply(d, id, step).sent == d.sent
  {
  }

  lemma TombstoneStepKeepsOk(d: Device, id: string, step: Step)
    requires Ok(d) && (step.Delete? || step.Collect?)
    ensures Ok(Apply(d, id, step))
    ensures Apply(d, id, step).sent == d.sent
  {
  }

  lemma StepKeepsOk(d: Device, id: string, step: Step)
    requires Ok(d) && Wellformed(step)
    ensures Ok(Apply(d, id, step))
    ensures Increasing(d.sent) && !step.Reconcile? ==> Increasing(Apply(d, id, step).sent)
  {
    match step
    case Writes(_, _, _, _) => WritesKeepOk(d, id, step);
    case Transaction(props, now) => TransactKeepsOk(d, id, props, now);
    case Report(props, baseVersion, clientID, policy, now) =>
      ReportKeepsOk(d, policy, ReportOp(id, props, baseVersion, d.counter + 1, clientID), now);
    case Resume(now) => ResumeKeepsOk(d, id, now);
    case Reconcile(now) => ReconcileKeepsOk(d, id, now);
    case Delete(_) => TombstoneStepKeepsOk(d, id, step);
    case Collect(_) => TombstoneStepKeepsOk(d, id, step);
    case Register => RegistryStepKeepsOk(d, id, step);
    case SetOnline(_) => RegistryStepKeepsOk(d, id, step);
  }

  lemma {:induction false} RunIsOk(id: string, steps: seq<Step>)
    requires AllWellformed(steps)
    ensures Ok(Run(id, steps))
    ensures (forall i :: 0 <= i < |steps| ==> !steps[i].Reconcile?) ==> Increasing(Run(id, steps).sent)
  {
    if steps != [] {
      RunIsOk(id, steps[..|steps| - 1]);
      StepKeepsOk(Run(id, steps[..|steps| - 1]), id, steps[|steps| - 1]);
    }
  }
}
