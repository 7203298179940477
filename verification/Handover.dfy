/** What a reconnect hands over: the writes a device has missed, while the history
    still has them. */
module Handover {
  import opened Model
  import opened Shadow
  import opened Replay
  import opened Machine
  import opened Guarantees
  import opened Reconciling
  import opened Recording
  import B = BatchGuarantees

  /** The issued writes newer than a watermark, in the order they were issued, as a
      reconnect hands them over. */
  function Missed(issued: seq<DesiredOp>, id: string, watermark: int): seq<DesiredOp> {
    if issued == [] then []
    else
      var rest, op := Missed(issued[..|issued| - 1], id, watermark), issued[|issued| - 1];
      if op.version <= watermark then rest else rest + [DesiredOp(id, op.props, op.version, "reconnect")]
  }

  /** As a reconnect labels what it replays. */
  ghost predicate Labelled(ops: seq<DesiredOp>, id: string) {
    forall op :: op in ops ==> op.deviceID == id && op.source == "reconnect"
  }

  /** They are the issued writes newer than the watermark, with their props, in version order. */
  lemma {:induction false} MissedAreIssued(issued: seq<DesiredOp>, id: string, watermark: int, counter: int)
    requires Increasing(issued) && Faithful(issued, issued, counter)
    ensures AreMissed(Missed(issued, id, watermark), issued, id, watermark, counter)
  {
    if issued != [] {
      hide AreMissed;
      var front, op := issued[..|issued| - 1], issued[|issued| - 1];
      FaithfulFront(issued, counter);
      MissedAreIssued(front, id, watermark, op.version - 1);
      if op.version <= watermark {
        NotMissed(Missed(front, id, watermark), issued, id, watermark, counter);
      } else {
        AlsoMissed(Missed(front, id, watermark), issued, DesiredOp(id, op.props, op.version, "reconnect"), watermark, counter);
      }
    }
  }

  ghost predicate AreMissed(ops: seq<DesiredOp>, issued: seq<DesiredOp>, id: string, watermark: int, counter: int) {
    && Increasing(ops) && Faithful(ops, issued, counter)
    && Labelled(ops, id) && (forall i :: 0 <= i < |ops| ==> ops[i].version > watermark)
    && (forall v :: v in Versions(ops) <==> v in Versions(issued) && v > watermark)
  }

  lemma NotMissed(ops: seq<DesiredOp>, issued: seq<DesiredOp>, id: string, watermark: int, counter: int)
    requires issued != [] && Increasing(issued) && Faithful(issued, issued, counter)
    requires var last := |issued| - 1; AreMissed(ops, issued[..last], id, watermark, issued[last].version - 1)
    requires issued[|issued| - 1].version <= watermark
    ensures AreMissed(ops, issued, id, watermark, counter)
  {
    var front, op := issued[..|issued| - 1], issued[|issued| - 1];
    assert issued == front + [op] && op.version <= counter;
    FaithfulGrows(ops, front, op, op.version - 1);
  }

  lemma AlsoMissed(ops: seq<DesiredOp>, issued: seq<DesiredOp>, last: DesiredOp, watermark: int, counter: int)
    requires issued != [] && Increasing(issued) && Faithful(issued, issued, counter)
    requires AreMissed(ops, issued[..|issued| - 1], last.deviceID, watermark, last.version - 1)
    requires var op := issued[|issued| - 1]; op.version == last.version > watermark && op.props == last.props
    requires last.source == "reconnect"
    ensures AreMissed(ops + [last], issued, last.deviceID, watermark, counter)
  {
    var front, op := issued[..|issued| - 1], issued[|issued| - 1];
    assert issued == front + [op] && op.version <= counter;
    FaithfulGrows(ops, front, op, op.version - 1);
    assert (ops + [last])[..|ops|] == ops;
    assert Faithful([last], issued, op.version) by {
      assert [last][0] == last;
    }
    FaithfulAppend(ops, last, issued, op.version);
  }

  lemma FaithfulFront(issued: seq<DesiredOp>, counter: int)
    requires issued != [] && Increasing(issued) && Faithful(issued, issued, counter)
    ensures var front := issued[..|issued| - 1];
            Increasing(front) && Faithful(front, front, issued[|issued| - 1].version - 1)
  {
    var last := |issued| - 1;
    forall i | 0 <= i < last ensures PropsAt(issued[..last], issued[i].version) == Some(issued[i].props) {
      assert issued[i].version < issued[last].version;
      assert PropsAt(issued, issued[i].version) == PropsAt(issued[..last], issued[i].version);
    }
  }

  lemma {:induction false} SinceIsLabelled(events: seq<Event>, id: string, watermark: int)
    ensures Labelled(DesiredSince(events, id, watermark), id)
  {
    if events != [] {
      SinceIsLabelled(events[..|events| - 1], id, watermark);
    }
  }

  lemma LastIsLargest(ops: seq<DesiredOp>)
    requires Increasing(ops) && ops != []
    ensures Versions(ops[..|ops| - 1]) == Versions(ops) - {ops[|ops| - 1].version}
    ensures forall v :: v in Versions(ops) ==> v <= ops[|ops| - 1].version
  {
    var front, last := ops[..|ops| - 1], ops[|ops| - 1];
    forall v | v in Versions(front) ensures v < last.version {
      var i := IndexOfVersion(front, v);
    }
  }

  lemma LastsAgree(a: seq<DesiredOp>, b: seq<DesiredOp>, id: string, issued: seq<DesiredOp>, counter: int)
    requires Increasing(a) && Increasing(b) && Faithful(a, issued, counter) && Faithful(b, issued, counter)
    requires Labelled(a, id) && Labelled(b, id)
    requires Versions(a) == Versions(b) && a != [] && b != []
    ensures a[|a| - 1] == b[|b| - 1] && Versions(a[..|a| - 1]) == Versions(b[..|b| - 1])
  {
    var x, y := a[|a| - 1], b[|b| - 1];
    VersionOfIndex(a, |a| - 1);
    VersionOfIndex(b, |b| - 1);
    hide Versions;
    LastIsLargest(a);
    LastIsLargest(b);
    assert x.version == y.version && x in a && y in b;
  }

  lemma FrontIsAlike(ops: seq<DesiredOp>, id: string, issued: seq<DesiredOp>, counter: int)
    requires Increasing(ops) && Faithful(ops, issued, counter) && Labelled(ops, id) && ops != []
    ensures var front := ops[..|ops| - 1];
            Increasing(front) && Faithful(front, issued, counter) && Labelled(front, id)
  {
  }

  lemma NothingHasVersions(ops: seq<DesiredOp>)
    ensures Versions(ops) == {} <==> ops == []
  {
  }

  /** Versions determine a list of labelled ops. */
  lemma {:induction false} SameVersionsSameOps(a: seq<DesiredOp>, b: seq<DesiredOp>, id: string, issued: seq<DesiredOp>, counter: int)
    requires Increasing(a) && Increasing(b) && Faithful(a, issued, counter) && Faithful(b, issued, counter)
    requires Labelled(a, id) && Labelled(b, id)
    requires Versions(a) == Versions(b)
    ensures a == b
  {
    hide Versions, Increasing, Faithful, Labelled;
    NothingHasVersions(a);
    NothingHasVersions(b);
    if a != [] && b != [] {
      LastsAgree(a, b, id, issued, counter);
      FrontIsAlike(a, id, issued, counter);
      FrontIsAlike(b, id, issued, counter);
      SameVersionsSameOps(a[..|a| - 1], b[..|b| - 1], id, issued, counter);
      assert a == a[..|a| - 1] + [a[|a| - 1]] && b == b[..|b| - 1] + [b[|b| - 1]];
    }
  }

  // ---- What a resume replays ----

  /** The write with this version is one of the last 20 events. */
  ghost predicate RecentWrite(log: seq<Event>, version: int) {
    exists k :: |log| - 20 <= k < |log| && 0 <= k && log[k].kind == EventDesired && log[k].version == version
  }

  lemma RecentIsInWindow(log: seq<Event>, version: int)
    ensures HasWrite(Window(log), version) <==> RecentWrite(log, version)
  {
    var from := if |log| <= 20 then 0 else |log| - 20;
    WindowIsLastTwenty(log, 0);
    if HasWrite(Window(log), version) {
      var i :| 0 <= i < |Window(log)| && Window(log)[i].kind.EventDesired? && Window(log)[i].version == version;
      assert log[from + i] == Window(log)[i];
    }
    if k :| |log| - 20 <= k < |log| && 0 <= k && log[k].kind == EventDesired && log[k].version == version {
      assert Window(log)[k - from] == log[k];
    }
  }

  /** A resume replays, of the writes the device has missed, exactly those that are
      among the last 20 events. */
  lemma ResumeReplaysRecent(d: Device, id: string, v: int)
    requires Ok(d) && d.handle.Some?
    ensures v in Versions(ResumeOps(d, id)) <==>
              v in Versions(Missed(d.issued, id, d.handle.value.lastDelivered)) && RecentWrite(d.shadow.log, v)
  {
    hide Versions, Window, Missed;
    OnlineVersions(d, id, v);
    RecentIsInWindow(d.shadow.log, v);
    MissedAreIssued(d.issued, id, d.handle.value.lastDelivered, d.counter);
    if RecentWrite(d.shadow.log, v) {
      var k :| |d.shadow.log| - 20 <= k < |d.shadow.log| && 0 <= k
               && d.shadow.log[k].kind == EventDesired && d.shadow.log[k].version == v;
      PropsAtIsIssued(d.issued, v);
    }
  }

  /** So it hands over everything the device has missed, each write once, in order and
      with its own props, if and only if all of it is among the last 20 events. */
  lemma ResumeHandsOver(d: Device, id: string)
    requires Ok(d) && d.handle.Some?
    ensures var missed := Missed(d.issued, id, d.handle.value.lastDelivered);
            ResumeOps(d, id) == missed <==> forall v :: v in Versions(missed) ==> RecentWrite(d.shadow.log, v)
  {
    hide Window, Missed, DesiredSince, RecentWrite;
    var missed := Missed(d.issued, id, d.handle.value.lastDelivered);
    forall v ensures v in Versions(ResumeOps(d, id)) <==> v in Versions(missed) && RecentWrite(d.shadow.log, v) {
      ResumeReplaysRecent(d, id, v);
    }
    if forall v :: v in Versions(missed) ==> RecentWrite(d.shadow.log, v) {
      OnlineOpsAreFaithful(d, id);
      MissedAreIssued(d.issued, id, d.handle.value.lastDelivered, d.counter);
      SinceIsLabelled(Window(d.shadow.log), id, d.handle.value.lastDelivered);
      var ops := OnlineOps(d, id);
      forall v ensures v in Versions(ops) <==> v in Versions(missed) {
        ResumeReplaysRecent(d, id, v);
      }
      assert Versions(ops) == Versions(missed);
      SameVersionsSameOps(ops, missed, id, d.issued, d.counter);
    }
  }

  // ---- An absence ----

  ghost predicate WrittenSince(log: seq<Event>, from: nat, version: int) {
    exists k :: from <= k < |log| && log[k].kind == EventDesired && log[k].version == version
  }

  /** Everything issued after the first `issued` ops is recorded after the first `logged` events. */
  ghost predicate AllRecordedSince(d: Device, issued: nat, logged: nat) {
    && d.shadow.tombstone.None? && issued <= |d.issued| && logged <= |d.shadow.log|
    && forall i :: issued <= i < |d.issued| ==> WrittenSince(d.shadow.log, logged, d.issued[i].version)
  }

  lemma {:induction false} WritesAreIssued(d: Device, id: string, batch: seq<Props>, source: string, now: int)
    ensures var after := WriteAll(d, id, batch, source, now);
            && after.counter == d.counter + |batch|
            && |after.issued| == |d.issued| + |batch| && after.issued[..|d.issued|] == d.issued
            && forall k :: 0 <= k < |batch| ==>
                 after.issued[|d.issued| + k] == DesiredOp(id, batch[k], d.counter + k + 1, source)
  {
    if batch != [] {
      hide Write;
      var last := |batch| - 1;
      WritesAreIssued(d, id, batch[..last], source, now);
      var before := WriteAll(d, id, batch[..last], source, now);
      B.WriteIssues(before, id, batch[last], source, now);
    }
  }

  lemma MoreRecorded(before: Device, after: Device, id: string, batch: seq<Props>, source: string, now: int, issued: nat, logged: nat)
    requires AllRecordedSince(before, issued, logged) && after.shadow.tombstone.None?
    requires RecordsWrites(after.shadow.log, before.shadow.log, id, batch, before.counter, now)
    requires |after.issued| == |before.issued| + |batch| && after.issued[..|before.issued|] == before.issued
    requires forall k :: 0 <= k < |batch| ==>
               after.issued[|before.issued| + k] == DesiredOp(id, batch[k], before.counter + k + 1, source)
    ensures AllRecordedSince(after, issued, logged)
  {
    var log, old_ := after.shadow.log, before.shadow.log;
    forall i | issued <= i < |after.issued| ensures WrittenSince(log, logged, after.issued[i].version) {
      if i < |before.issued| {
        assert after.issued[i] == before.issued[i];
        var k :| logged <= k < |old_| && old_[k].kind == EventDesired && old_[k].version == before.issued[i].version;
        assert log[k] == log[..|old_|][k] == old_[k];
      } else {
        var k := i - |before.issued|;
        assert after.issued[i] == after.issued[|before.issued| + k];
        assert RecordsWrite(log[|old_| + k], id, batch[k], before.counter + k + 1, now);
      }
    }
  }

  lemma NothingIssued(before: Device, after: Device, issued: nat, logged: nat)
    requires AllRecordedSince(before, issued, logged) && after.shadow.tombstone.None?
    requires after.issued == before.issued && before.shadow.log <= after.shadow.log
    ensures AllRecordedSince(after, issued, logged)
  {
    forall i | issued <= i < |after.issued| ensures WrittenSince(after.shadow.log, logged, after.issued[i].version) {
      assert WrittenSince(before.shadow.log, logged, before.issued[i].version);
      var k :| logged <= k < |before.shadow.log|
               && before.shadow.log[k].kind == EventDesired && before.shadow.log[k].version == before.issued[i].version;
      assert after.shadow.log[k] == before.shadow.log[k];
    }
  }

  lemma {:induction false} DeliverAllIssuesNothing(d: Device, ops: seq<DesiredOp>)
    ensures DeliverAll(d, ops).issued == d.issued
    decreases |ops|
  {
    if ops != [] && Deliver(d, ops[0]).1 {
      DeliverAllIssuesNothing(Deliver(d, ops[0]).0, ops[1..]);
    }
  }

  /** Unless the shadow is deleted, every step records all that it issues. */
  lemma StepRecordsAll(d: Device, id: string, step: Step, issued: nat, logged: nat)
    requires Ok(d) && OwnDoc(d, id) && Wellformed(step) && !step.Delete?
    requires AllRecordedSince(d, issued, logged)
    ensures AllRecordedSince(Apply(d, id, step), issued, logged)
  {
    hide Ok, OwnDoc, AllRecordedSince, RecordsWrite, RecordsWrites, DeliverAll, OnlineOps, Plan, Write, WriteAll;
    assert d.shadow.tombstone.None? by {
      NotTombstoned(d, issued, logged);
    }
    var after := Apply(d, id, step);
    StepIsRecorded(d, id, step);
    match step
    case Writes(batch, source, partial, now) =>
      WritesAreRecorded(d, id, batch, source, now);
      WritesAreIssued(d, id, batch, source, now);
      MoreRecorded(d, after, id, batch, source, now, issued, logged);
    case Transaction(props, now) =>
      TransactionIssues(d, id, props, now);
      MoreRecorded(d, after, id, [props], "transaction", now, issued, logged);
    case Resume(now) =>
      DeliverAllKeepsShadow(d, ResumeOps(d, id));
      DeliverAllIssuesNothing(d, ResumeOps(d, id));
      NothingIssued(d, after, issued, logged);
    case Reconcile(now) =>
      if d.handle.Some? {
        DeliverAllKeepsShadow(Drained(d), ReconcileOps(d, id));
        DeliverAllIssuesNothing(Drained(d), ReconcileOps(d, id));
      }
      NothingIssued(d, after, issued, logged);
    case Report(_, _, _, _, _) =>
      ReportKeepsTombstone(d, id, step);
      NothingIssued(d, after, issued, logged);
    case _ => NothingIssued(d, after, issued, logged);
  }

  lemma NotTombstoned(d: Device, issued: nat, logged: nat)
    requires AllRecordedSince(d, issued, logged)
    ensures d.shadow.tombstone.None?
  {
  }

  lemma ReportKeepsTombstone(d: Device, id: string, step: Step)
    requires step.Report?
    ensures Apply(d, id, step).shadow.tombstone == d.shadow.tombstone && Apply(d, id, step).issued == d.issued
  {
  }

  lemma TransactionIssues(d: Device, id: string, props: Props, now: int)
    ensures var after := Apply(d, id, Transaction(props, now));
            && after.issued == d.issued + [DesiredOp(id, props, d.counter + 1, "transaction")]
            && after.shadow.tombstone == d.shadow.tombstone
  {
  }

  /** Nothing a step does takes back what was issued, the registration or the delivery watermark. */
  lemma StepKeepsProgress(d: Device, id: string, step: Step)
    requires Ok(d) && Wellformed(step) && d.handle.Some?
    ensures var after := Apply(d, id, step);
            && d.issued <= after.issued && after.handle.Some?
            && d.handle.value.lastDelivered <= after.handle.value.lastDelivered
  {
    hide Highest, LogOk, DocOk, Faithful;
    StepKeepsOk(d, id, step);
    B.StepGrows(d, id, step);
    var after := Apply(d, id, step);
    assert after.sent == d.sent + after.sent[|d.sent|..];
    HighestOfConcat(d.sent, after.sent[|d.sent|..]);
    StepKeepsHandle(d, id, step);
  }

  lemma StepKeepsHandle(d: Device, id: string, step: Step)
    requires d.handle.Some?
    ensures Apply(d, id, step).handle.Some?
  {
    match step
    case Writes(batch, source, partial, now) => WriteAllKeepsHandle(d, id, batch, source, now);
    case Resume(now) => DeliverAllKeepsHandle(d, ResumeOps(d, id));
    case Reconcile(now) => DeliverAllKeepsHandle(Drained(d), ReconcileOps(d, id));
    case _ =>
  }

  lemma {:induction false} DeliverAllKeepsHandle(d: Device, ops: seq<DesiredOp>)
    requires d.handle.Some?
    ensures DeliverAll(d, ops).handle.Some?
    decreases |ops|
  {
    if ops != [] && Deliver(d, ops[0]).1 {
      DeliverAllKeepsHandle(Deliver(d, ops[0]).0, ops[1..]);
    }
  }

  lemma {:induction false} WriteAllKeepsHandle(d: Device, id: string, batch: seq<Props>, source: string, now: int)
    requires d.handle.Some?
    ensures WriteAll(d, id, batch, source, now).handle.Some?
  {
    if batch != [] {
      WriteAllKeepsHandle(d, id, batch[..|batch| - 1], source, now);
    }
  }

  ghost predicate NoDelete(steps: seq<Step>) {
    forall i :: 0 <= i < |steps| ==> !steps[i].Delete?
  }

  /** A registered device that has received everything issued to it, and whose shadow is not tombstoned. */
  ghost predicate UpToDate(d: Device) {
    && d.handle.Some? && d.shadow.tombstone.None?
    && forall i :: 0 <= i < |d.issued| ==> d.issued[i].version <= d.handle.value.lastDelivered
  }

  lemma {:induction false} AbsenceIsRecorded(id: string, steps: seq<Step>, more: seq<Step>)
    requires AllWellformed(steps) && AllWellformed(more) && NoDelete(more)
    requires UpToDate(Run(id, steps))
    ensures var d, after := Run(id, steps), Run(id, steps + more);
            && AllRecordedSince(after, |d.issued|, |d.shadow.log|) && d.issued <= after.issued
            && after.handle.Some? && d.handle.value.lastDelivered <= after.handle.value.lastDelivered
  {
    var d := Run(id, steps);
    if more == [] {
      assert steps + more == steps;
    } else {
      hide Ok, OwnDoc, AllRecordedSince, Apply, UpToDate;
      var front, last := more[..|more| - 1], more[|more| - 1];
      assert (steps + more)[..|steps + more| - 1] == steps + front;
      AbsenceIsRecorded(id, steps, front);
      RunIsOk(id, steps + front);
      RunIsOwn(id, steps + front);
      StepRecordsAll(Run(id, steps + front), id, last, |d.issued|, |d.shadow.log|);
      StepKeepsProgress(Run(id, steps + front), id, last);
    }
  }

  /** Whatever happens to an up-to-date device but a delete, and be it offline all the
      while: as long as that makes at most 20 events, the next reconnect hands over all
      the writes the device has missed, each once, in order and with its own props. */
  lemma NothingMissedWithinWindow(id: string, steps: seq<Step>, more: seq<Step>, now: int)
    requires AllWellformed(steps) && AllWellformed(more) && NoDelete(more)
    requires UpToDate(Run(id, steps))
    requires |Run(id, steps + more).shadow.log| <= |Run(id, steps).shadow.log| + 20
    ensures var d := Run(id, steps + more);
            && d.handle.Some?
            && Reconnected(d, id, now).sent == d.sent + Missed(d.issued, id, d.handle.value.lastDelivered)
  {
    hide Ok, Run, UpToDate, AllRecordedSince, RecentWrite, Missed, Window, DesiredSince, Versions;
    var d := Run(id, steps + more);
    AbsenceIsRecorded(id, steps, more);
    RunIsOk(id, steps + more);
    forall v | v in Versions(Missed(d.issued, id, d.handle.value.lastDelivered)) ensures RecentWrite(d.shadow.log, v) {
      MissedIsRecent(Run(id, steps), d, id, v);
    }
    ResumeHandsOver(d, id);
    ResumedIsSent(d, id, now);
  }

  lemma MissedIsRecent(before: Device, d: Device, id: string, v: int)
    requires UpToDate(before) && Ok(d) && d.handle.Some?
    requires AllRecordedSince(d, |before.issued|, |before.shadow.log|) && before.issued <= d.issued
    requires before.handle.value.lastDelivered <= d.handle.value.lastDelivered
    requires |d.shadow.log| <= |before.shadow.log| + 20
    requires v in Versions(Missed(d.issued, id, d.handle.value.lastDelivered))
    ensures RecentWrite(d.shadow.log, v)
  {
    MissedAreIssued(d.issued, id, d.handle.value.lastDelivered, d.counter);
    var i := IndexOfVersion(d.issued, v);
    assert WrittenSince(d.shadow.log, |before.shadow.log|, v);
  }

  lemma ResumedIsSent(d: Device, id: string, now: int)
    requires Ok(d) && d.handle.Some?
    ensures Reconnected(d, id, now).sent == d.sent + ResumeOps(d, id)
  {
    SentIsNatural(d);
    DeliverAllOnline(Apply(d, id, SetOnline(true)), OnlineOps(d, id));
  }

  lemma SentIsNatural(d: Device)
    requires Ok(d) && d.handle.Some?
    ensures d.handle.value.lastDelivered >= 0
  {
  }
}
