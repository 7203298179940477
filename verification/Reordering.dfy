/** A run in which a device ends with an older write than the stored one. */
module Reordering {
  import opened Model
  import opened Shadow
  import opened Replay
  import opened Machine
  import opened Guarantees

  /** Registered, then offline. */
  function Offline(): Device {
    Apply(Apply(NEW_DEVICE, "d", Register), "d", SetOnline(false))
  }

  function Wrote(d: Device, p: Props): Device {
    Write(d, "d", p, "console", 0).0
  }

  function Op(p: Props, version: int): DesiredOp {
    DesiredOp("d", p, version, "console")
  }

  ghost predicate IsWrite(event: Event, version: int, props: Props) {
    event.kind.EventDesired? && event.version == version && event.snapshot.Some? && event.snapshot.value.desired == props
  }

  /** Still offline: `first` heads the cache, and the log starts with two writes. */
  ghost predicate Waiting(d: Device, counter: int, cached: seq<DesiredOp>, p: Props, q: Props) {
    && d.counter == counter && d.sent == []
    && d.handle.Some? && !d.handle.value.online && d.handle.value.lastDelivered == 0
    && d.handle.value.cache == cached
    && d.shadow.tombstone.None? && d.shadow.doc.Some?
    && d.shadow.doc.value.desiredVersion == counter && d.shadow.doc.value.reportedVersion == 0
    && 2 <= |d.shadow.log| && IsWrite(d.shadow.log[0], 1, p) && IsWrite(d.shadow.log[1], 2, q)
  }

  /** Two writes while offline are cached. */
  lemma AfterTwoWrites(p: Props, q: Props)
    ensures var d := Wrote(Wrote(Offline(), p), q);
            Waiting(d, 2, [Op(p, 1), Op(q, 2)], p, q) && |d.shadow.log| == 2
  {
    var once := Wrote(Offline(), p);
    assert once.counter == 1 && once.sent == [];
    assert once.handle.value.cache == [Op(p, 1)];
    assert [Op(p, 1)] + [Op(q, 2)] == [Op(p, 1), Op(q, 2)];
  }

  /** A reconcile while still offline keeps the first write only. */
  lemma AfterOfflineReconcile(d: Device, p: Props, q: Props)
    requires Waiting(d, 2, [Op(p, 1), Op(q, 2)], p, q) && |d.shadow.log| == 2
    ensures var after := Apply(d, "d", Reconcile(0));
            Waiting(after, 2, [Op(p, 1)], p, q) && |after.shadow.log| == 3 && after.shadow.log[2].kind.EventReconnect?
  {
    PlanKeepsHead(d.handle.value.cache + OnlineOps(d, "d"));
    OfflineReconcileKeepsFirst(d, "d", 0);
  }

  /** The third write joins it. */
  lemma AfterThirdWrite(d: Device, p: Props, q: Props, r: Props)
    requires Waiting(d, 2, [Op(p, 1)], p, q) && |d.shadow.log| == 3 && d.shadow.log[2].kind.EventReconnect?
    ensures var after := Wrote(d, r);
            && Waiting(after, 3, [Op(p, 1), Op(r, 3)], p, q)
            && after.shadow.doc.value.desired == r
            && |after.shadow.log| == 4 && after.shadow.log[2].kind.EventReconnect? && IsWrite(after.shadow.log[3], 3, r)
  {
    assert [Op(p, 1)] + [Op(r, 3)] == [Op(p, 1), Op(r, 3)];
  }

  lemma {:induction false} PlanKeepsHead(ops: seq<DesiredOp>)
    requires ops != []
    ensures Plan(ops) != [] && Plan(ops)[0] == ops[0]
  {
    if |ops| == 1 {
      assert ops[..0] == [];
    } else {
      PlanKeepsHead(ops[..|ops| - 1]);
    }
  }

  lemma SinceOfLog(log: seq<Event>, p: Props, q: Props, r: Props)
    requires |log| == 4
    requires IsWrite(log[0], 1, p) && IsWrite(log[1], 2, q) && log[2].kind.EventReconnect? && IsWrite(log[3], 3, r)
    ensures var ops := DesiredSince(log, "d", 0);
            |ops| == 3 && ops[0].version == 1 && ops[1].version == 2 && ops[2].version == 3 && ops[1].props == q
  {
    assert log[..3][..2] == log[..2] && log[..2][..1] == log[..1] && log[..1][..0] == [];
    assert |DesiredSince(log[..1], "d", 0)| == 1;
    assert DesiredSince(log[..3], "d", 0) == DesiredSince(log[..2], "d", 0);
  }

  lemma VersionsOfTwo(a: DesiredOp, b: DesiredOp)
    ensures Versions([a]) == {a.version} && Versions([a, b]) == {a.version, b.version}
  {
    assert [a][..0] == [];
    assert [a, b][..1] == [a];
  }

  lemma PlanOfReordered(a: DesiredOp, b: DesiredOp, online: seq<DesiredOp>)
    requires a.version == 1 && b.version == 3
    requires |online| == 3 && online[0].version == 1 && online[1].version == 2 && online[2].version == 3
    ensures Plan([a, b] + online) == [a, b, online[1]]
    ensures Highest([a, b, online[1]]) == 3
  {
    var ops := [a, b] + online;
    VersionsOfTwo(a, b);
    VersionsOfTwo(online[0], b);
    PlanOfCovered([a, b], [online[0]]);
    assert ops[..3] == [a, b] + [online[0]];
    assert ops[..4][..3] == ops[..3] && Plan(ops[..4]) == [a, b, online[1]];
    assert [a, b, online[1]][..2] == [a, b];
    assert ops[..5] == ops && ops[..5][..4] == ops[..4];
  }

  /** The reconcile after coming back delivers the second write after the third:
      the device ends with `q`, while its watermark equals the desired version
      of the stored `r` and its cache is empty. */
  lemma OfflineReconcileReorders(p: Props, q: Props, r: Props)
    ensures var d := Wrote(Apply(Wrote(Wrote(Offline(), p), q), "d", Reconcile(0)), r);
            var after := Apply(Apply(d, "d", SetOnline(true)), "d", Reconcile(0));
            && |after.sent| == 3
            && after.sent[0].version == 1 && after.sent[1].version == 3
            && after.sent[2].version == 2 && after.sent[2].props == q
            && after.handle.Some? && after.shadow.doc.Some?
            && after.handle.value.lastDelivered == after.shadow.doc.value.desiredVersion == 3
            && after.shadow.doc.value.desired == r
            && after.handle.value.cache == []
  {
    AfterTwoWrites(p, q);
    var twice := Wrote(Wrote(Offline(), p), q);
    AfterOfflineReconcile(twice, p, q);
    AfterThirdWrite(Apply(twice, "d", Reconcile(0)), p, q, r);
    FinalReconcile(Wrote(Apply(twice, "d", Reconcile(0)), r), p, q, r);
  }

  lemma FinalReconcile(d: Device, p: Props, q: Props, r: Props)
    requires Waiting(d, 3, [Op(p, 1), Op(r, 3)], p, q)
    requires |d.shadow.log| == 4 && d.shadow.log[2].kind.EventReconnect? && IsWrite(d.shadow.log[3], 3, r)
    ensures var after := Apply(Apply(d, "d", SetOnline(true)), "d", Reconcile(0));
            && |after.sent| == 3
            && after.sent[0].version == 1 && after.sent[1].version == 3
            && after.sent[2].version == 2 && after.sent[2].props == q
            && after.handle.Some?
            && after.handle.value.lastDelivered == 3
            && after.shadow.doc == d.shadow.doc
            && after.handle.value.cache == []
  {
    var online := Apply(d, "d", SetOnline(true));
    SinceOfLog(d.shadow.log, p, q, r);
    PlanOfReordered(Op(p, 1), Op(r, 3), OnlineOps(online, "d"));
    DeliverAllOnline(Drained(online), ReconcileOps(online, "d"));
  }

  /** One op is cached; it was delivered once if it is also `sent`. */
  ghost predicate Cached(d: Device, online: bool, sent: nat, p: Props) {
    && d.handle.Some? && d.handle.value.online == online
    && d.handle.value.cache == [Op(p, 1)] && d.handle.value.lastDelivered == sent
    && |d.sent| == sent && (forall i :: 0 <= i < sent ==> d.sent[i].version == 1)
    && |d.shadow.log| == 1 + sent && IsWrite(d.shadow.log[0], 1, p)
    && (forall i :: 1 <= i < |d.shadow.log| ==> d.shadow.log[i].kind.EventReconnect?)
  }

  lemma AfterOneWrite(p: Props)
    ensures Cached(Wrote(Offline(), p), false, 0, p)
  {
    assert [] + [Op(p, 1)] == [Op(p, 1)];
  }

  lemma AfterHandover(d: Device, p: Props)
    requires Cached(d, false, 0, p)
    ensures Cached(Reconnected(d, "d", 0), true, 1, p)
  {
    var online := Apply(d, "d", SetOnline(true));
    SinceOfOne(d.shadow.log, p);
    DeliverAllOnline(online, OnlineOps(online, "d"));
  }

  lemma AfterRepeat(d: Device, p: Props)
    requires Cached(d, true, 1, p)
    ensures var after := Apply(d, "d", Reconcile(0));
            |after.sent| == 2 && after.sent[0].version == after.sent[1].version == 1
  {
    SinceOfTwo(d.shadow.log, p);
    PlanOfOne(Op(p, 1));
    assert ReconcileOps(d, "d") == [Op(p, 1)] by {
      assert [Op(p, 1)] + [] == [Op(p, 1)];
    }
    DeliverAllOnline(Drained(d), ReconcileOps(d, "d"));
  }

  lemma PlanOfOne(op: DesiredOp)
    ensures Plan([op]) == [op]
  {
    assert [op][..0] == [];
  }

  /** A write cached while offline is handed over by the resume on reconnect and,
      still in the cache, once more by a reconcile. */
  lemma ReconcileDeliversTwice(p: Props)
    ensures var back := Reconnected(Wrote(Offline(), p), "d", 0);
            var after := Apply(back, "d", Reconcile(0));
            |after.sent| == 2 && after.sent[0].version == after.sent[1].version == 1
  {
    AfterOneWrite(p);
    AfterHandover(Wrote(Offline(), p), p);
    AfterRepeat(Reconnected(Wrote(Offline(), p), "d", 0), p);
  }

  lemma SinceOfOne(log: seq<Event>, p: Props)
    requires |log| == 1 && IsWrite(log[0], 1, p)
    ensures var ops := DesiredSince(log, "d", 0);
            |ops| == 1 && ops[0].version == 1 && Highest(ops) == 1
  {
    assert DesiredSince(log[..0], "d", 0) == [];
    assert DesiredSince(log, "d", 0)[..0] == [];
  }

  /** Nothing is newer than the watermark once the write was handed over. */
  lemma SinceOfTwo(log: seq<Event>, p: Props)
    requires |log| == 2 && IsWrite(log[0], 1, p) && log[1].kind.EventReconnect?
    ensures DesiredSince(log, "d", 1) == []
  {
    assert log[..1][..0] == [];
    assert DesiredSince(log[..1][..0], "d", 1) == [];
    assert DesiredSince(log[..1], "d", 1) == [];
  }
}
