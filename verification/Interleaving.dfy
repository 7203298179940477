/** Allocation and commit as separate atomic steps. An operation takes its
    version under one lock and commits under another, so operations of one
    device may commit in another order than they were numbered. */
module Interleaving {
  import opened Model
  import opened Conflict
  import opened Shadow
  import opened Replay

  /** An operation that has its version and is not yet committed. */
  datatype Flight = DesiredFlight(write: DesiredOp) | ReportFlight(report: ReportOp)
  {
    function Version(): int {
      match this
      case DesiredFlight(op) => op.version
      case ReportFlight(op) => op.version
    }
  }

  /** One device, with the writes committed and the reports accepted so far, in commit order. */
  datatype Shared = Shared(
    counter: int,
    shadow: Shadow,
    flights: set<Flight>,
    committed: seq<DesiredOp>,
    accepted: seq<ReportOp>)

  const INITIAL := Shared(0, EMPTY, {}, [], [])

  datatype Action =
    | AllocateDesired(props: Props, source: string)
    | AllocateReport(props: Props, baseVersion: int, clientID: string)
    | Commit(flight: Flight, policy: Policy, now: int)
    | MarkStale(now: int)

  function Next(s: Shared, id: string, action: Action): Shared {
    match action
    case AllocateDesired(props, source) =>
      s.(counter := s.counter + 1,
         flights := s.flights + {DesiredFlight(DesiredOp(id, props, s.counter + 1, source))})
    case AllocateReport(props, baseVersion, clientID) =>
      s.(counter := s.counter + 1,
         flights := s.flights + {ReportFlight(ReportOp(id, props, baseVersion, s.counter + 1, clientID))})
    case Commit(flight, policy, now) =>
      if flight !in s.flights then s else Landed(s, flight, policy, now)
    case MarkStale(now) => s.(shadow := WithState(s.shadow, Stale, now))
  }

  function Landed(s: Shared, flight: Flight, policy: Policy, now: int): Shared {
    var rest := s.(flights := s.flights - {flight});
    match flight
    case DesiredFlight(op) =>
      rest.(shadow := CommitDesired(s.shadow, op, now), committed := s.committed + [op])
    case ReportFlight(op) =>
      rest.(shadow := CommitReport(s.shadow, policy, op, now),
            accepted := if PassesGate(s, op, now) then s.accepted + [op] else s.accepted)
  }

  /** The store accepts a report based on the overall version or later. */
  predicate PassesGate(s: Shared, op: ReportOp, now: int) {
    s.shadow.tombstone.None? && op.baseVersion >= Ensured(s.shadow, op.deviceID, now).version
  }

  function Exec(id: string, actions: seq<Action>): Shared {
    if actions == [] then INITIAL
    else Next(Exec(id, actions[..|actions| - 1]), id, actions[|actions| - 1])
  }

  /** Versions of flights and committed writes are all different. */
  ghost predicate Distinct(s: Shared) {
    && (forall a, b :: a in s.flights && b in s.flights && a.Version() == b.Version() ==> a == b)
    && (forall a :: a in s.flights ==> 1 <= a.Version() <= s.counter && a.Version() !in Versions(s.committed))
    && (forall v :: v in Versions(s.committed) ==> 1 <= v <= s.counter)
  }

  /** The desired section is that of the newest committed write. */
  ghost predicate NewestWins(s: Shared) {
    match s.shadow.doc
    case None => s.committed == []
    case Some(doc) =>
      && doc.desiredVersion == Highest(s.committed)
      && (s.committed == [] ==> doc.desired == map[])
      && forall k :: 0 <= k < |s.committed| && s.committed[k].version == doc.desiredVersion ==>
           s.committed[k].props == doc.desired
  }

  ghost predicate VersionsOk(s: Shared) {
    && 0 <= s.counter && s.shadow.tombstone.None?
    && (s.shadow.doc.Some? ==>
          var doc := s.shadow.doc.value;
          WatermarkOk(doc) && 0 <= doc.desiredVersion && 0 <= doc.reportedVersion && doc.version <= s.counter)
  }

  ghost predicate Safe(s: Shared) {
    Distinct(s) && NewestWins(s) && VersionsOk(s)
  }

  lemma CommittedOneMore(ops: seq<DesiredOp>, op: DesiredOp)
    ensures Highest(ops + [op]) == MaxVersion(Highest(ops), op.version)
    ensures Versions(ops + [op]) == Versions(ops) + {op.version}
  {
    PlanSnoc(ops, op);
  }

  /** A write newer than the stored one takes the section over. */
  lemma FreshWriteWins(s: Shared, op: DesiredOp, now: int)
    requires NewestWins(s) && VersionsOk(s) && op.version > Highest(s.committed)
    requires op.version !in Versions(s.committed) && 1 <= op.version <= s.counter
    ensures var after := s.(shadow := CommitDesired(s.shadow, op, now), committed := s.committed + [op]);
            NewestWins(after) && VersionsOk(after)
  {
    hide Highest, Versions;
    CommittedOneMore(s.committed, op);
    var all := s.committed + [op];
    forall k | 0 <= k < |all| && all[k].version == op.version ensures all[k].props == op.props {
      if k < |s.committed| {
        VersionOfIndex(s.committed, k);
      }
    }
  }

  /** An older one changes no section. */
  lemma StaleWriteLoses(s: Shared, op: DesiredOp, now: int)
    requires NewestWins(s) && VersionsOk(s) && op.version < Highest(s.committed)
    requires 1 <= op.version <= s.counter
    ensures var after := s.(shadow := CommitDesired(s.shadow, op, now), committed := s.committed + [op]);
            NewestWins(after) && VersionsOk(after)
  {
    hide Versions;
    CommittedOneMore(s.committed, op);
    var all := s.committed + [op];
    assert forall k :: 0 <= k < |s.committed| ==> all[k] == s.committed[k];
  }

  lemma HighestIsCommitted(ops: seq<DesiredOp>, v: int)
    requires v !in Versions(ops) && v > 0
    ensures v != Highest(ops)
  {
  }

  lemma LandedWriteIsSafe(s: Shared, op: DesiredOp, policy: Policy, now: int)
    requires Safe(s) && DesiredFlight(op) in s.flights
    ensures NewestWins(Landed(s, DesiredFlight(op), policy, now))
    ensures VersionsOk(Landed(s, DesiredFlight(op), policy, now))
  {
    hide NewestWins, VersionsOk, CommitDesired, Highest, Versions;
    assert DesiredFlight(op).Version() == op.version;
    HighestIsCommitted(s.committed, op.version);
    var committed := s.(shadow := CommitDesired(s.shadow, op, now), committed := s.committed + [op]);
    if op.version > Highest(s.committed) {
      FreshWriteWins(s, op, now);
    } else {
      StaleWriteLoses(s, op, now);
    }
    FlightsDoNotMatter(committed, Landed(s, DesiredFlight(op), policy, now));
  }

  lemma FlightsDoNotMatter(a: Shared, b: Shared)
    requires NewestWins(a) && VersionsOk(a)
    requires a.shadow == b.shadow && a.committed == b.committed && a.counter == b.counter
    ensures NewestWins(b) && VersionsOk(b)
  {
  }

  lemma LandedReportIsSafe(s: Shared, op: ReportOp, policy: Policy, now: int)
    requires Safe(s) && ReportFlight(op) in s.flights
    ensures NewestWins(Landed(s, ReportFlight(op), policy, now))
    ensures VersionsOk(Landed(s, ReportFlight(op), policy, now))
  {
    assert ReportFlight(op).Version() == op.version;
  }

  lemma LandedIsDistinct(s: Shared, flight: Flight, policy: Policy, now: int)
    requires Distinct(s) && flight in s.flights
    ensures Distinct(Landed(s, flight, policy, now))
  {
    var after := Landed(s, flight, policy, now);
    if flight.DesiredFlight? {
      assert after.committed[..|s.committed|] == s.committed;
    }
  }

  lemma ActionIsSafe(s: Shared, id: string, action: Action)
    requires Safe(s)
    ensures Safe(Next(s, id, action))
  {
    match action
    case Commit(flight, policy, now) =>
      if flight in s.flights {
        LandedIsDistinct(s, flight, policy, now);
        match flight
        case DesiredFlight(op) => LandedWriteIsSafe(s, op, policy, now);
        case ReportFlight(op) => LandedReportIsSafe(s, op, policy, now);
      }
    case _ =>
  }

  lemma {:induction false} EveryRunIsSafe(id: string, actions: seq<Action>)
    ensures Safe(Exec(id, actions))
  {
    if actions != [] {
      EveryRunIsSafe(id, actions[..|actions| - 1]);
      ActionIsSafe(Exec(id, actions[..|actions| - 1]), id, actions[|actions| - 1]);
    }
  }

  // ---- Last writer wins, by version ----

  /** Whatever the commit order, the stored desired section and its version are
      those of the highest-version write committed so far, and the overall
      version is the larger section version and no more than was allocated. */
  lemma LastWriterWins(id: string, actions: seq<Action>, k: nat)
    requires k < |Exec(id, actions).committed|
    requires forall j :: 0 <= j < |Exec(id, actions).committed| ==>
               Exec(id, actions).committed[j].version <= Exec(id, actions).committed[k].version
    ensures var s := Exec(id, actions);
            && s.shadow.doc.Some?
            && s.shadow.doc.value.desired == s.committed[k].props
            && s.shadow.doc.value.desiredVersion == s.committed[k].version
            && s.shadow.doc.value.version ==
                 MaxVersion(s.shadow.doc.value.desiredVersion, s.shadow.doc.value.reportedVersion) <= s.counter
  {
    EveryRunIsSafe(id, actions);
    var s := Exec(id, actions);
    VersionOfIndex(s.committed, k);
    if Highest(s.committed) in Versions(s.committed) {
      var j := IndexOfVersion(s.committed, Highest(s.committed));
    }
  }

  /** Two runs that committed the same writes, in any two orders, store the same desired section. */
  lemma CommitOrderIsIrrelevant(id: string, left: seq<Action>, right: seq<Action>)
    requires multiset(Exec(id, left).committed) == multiset(Exec(id, right).committed) != multiset{}
    ensures var a, b := Exec(id, left).shadow.doc, Exec(id, right).shadow.doc;
            && a.Some? && b.Some?
            && a.value.desired == b.value.desired
            && a.value.desiredVersion == b.value.desiredVersion
  {
    var a, b := Exec(id, left).committed, Exec(id, right).committed;
    var i, j := NewestIndex(a), NewestIndex(b);
    LastWriterWins(id, left, i);
    LastWriterWins(id, right, j);
    assert a[i] in multiset(b) && b[j] in multiset(a);
    var k :| 0 <= k < |b| && b[k] == a[i];
    var l :| 0 <= l < |a| && a[l] == b[j];
    EveryRunIsSafe(id, left);
  }

  function NewestIndex(ops: seq<DesiredOp>): (i: nat)
    requires ops != []
    ensures i < |ops| && forall j :: 0 <= j < |ops| ==> ops[j].version <= ops[i].version
  {
    if |ops| == 1 then 0
    else
      var i := NewestIndex(ops[..|ops| - 1]);
      if ops[|ops| - 1].version > ops[i].version then |ops| - 1 else i
  }

  predicate NotAfter(a: Doc, b: Doc) {
    a.version <= b.version && a.desiredVersion <= b.desiredVersion && a.reportedVersion <= b.reportedVersion
  }

  lemma ActionNeverDecreases(s: Shared, id: string, action: Action)
    requires VersionsOk(s) && s.shadow.doc.Some?
    ensures var after := Next(s, id, action).shadow.doc;
            after.Some? && NotAfter(s.shadow.doc.value, after.value)
  {
  }

  /** The overall version and both section versions never decrease. */
  lemma {:induction false} VersionsNeverDecrease(id: string, actions: seq<Action>, n: nat)
    requires n <= |actions| && Exec(id, actions[..n]).shadow.doc.Some?
    ensures var after := Exec(id, actions).shadow.doc;
            after.Some? && NotAfter(Exec(id, actions[..n]).shadow.doc.value, after.value)
  {
    if n < |actions| {
      var last := |actions| - 1;
      var before := Exec(id, actions[..last]);
      assert Exec(id, actions) == Next(before, id, actions[last]);
      assert actions[..last][..n] == actions[..n];
      hide Exec, Next, Distinct, NewestWins, VersionsOk;
      VersionsNeverDecrease(id, actions[..last], n);
      EveryRunIsSafe(id, actions[..last]);
      ActionNeverDecreases(before, id, actions[last]);
    } else {
      assert actions[..n] == actions;
    }
  }

  // ---- Reports are compare-and-set ----

  /** A report that passes the store gate is never rejected by the conflict rules. */
  lemma GateImpliesResolve(doc: Doc, baseVersion: int)
    requires WatermarkOk(doc) && baseVersion >= doc.version
    ensures Resolve(doc.desiredVersion, doc.reportedVersion, baseVersion, OpReport).applyReported
  {
  }

  /** The store gate is stricter than the section rule: the store leaves as it was
      what that rule would merge exactly when the report is based on a version from
      the reported one up to below the desired one. */
  lemma GateIsStricter(s: Shadow, policy: Policy, r: ReportOp, now: int)
    requires s.doc.Some? && s.tombstone.None? && WatermarkOk(s.doc.value)
    ensures var doc := s.doc.value;
            CommitReport(s, policy, r, now) == s
            && Resolve(doc.desiredVersion, doc.reportedVersion, r.baseVersion, OpReport).applyReported
            <==> doc.reportedVersion <= r.baseVersion < doc.desiredVersion
  {
    if r.baseVersion >= s.doc.value.version {
      assert |CommitReport(s, policy, r, now).log| == |s.log| + 1;
    }
  }

  /** At the store the sections are not independent: a new write and a report
      numbered after it may commit in either order, and the reported section comes
      out the same if and only if the report is based on less than the stored
      version, or on the write. The desired section is the same either way. */
  lemma StoreOrderMatters(s: Shadow, policy: Policy, w: DesiredOp, r: ReportOp, now: int)
    requires s.doc.Some? && s.tombstone.None? && WatermarkOk(s.doc.value)
    requires s.doc.value.version < w.version < r.version && r.baseVersion < r.version
    ensures var writeFirst := CommitReport(CommitDesired(s, w, now), policy, r, now).doc;
            var reportFirst := CommitDesired(CommitReport(s, policy, r, now), w, now).doc;
            && writeFirst.Some? && reportFirst.Some?
            && writeFirst.value.desired == reportFirst.value.desired == w.props
            && writeFirst.value.desiredVersion == reportFirst.value.desiredVersion
            && (writeFirst.value.reportedVersion == reportFirst.value.reportedVersion
                <==> r.baseVersion < s.doc.value.version || r.baseVersion >= w.version)
  {
  }

  /** One write and one report on the version before it, committed in both orders. */
  function BothOrders(p: Props, q: Props, writeFirst: bool): seq<Action> {
    var policy := Policy(false);
    var write := Commit(DesiredFlight(DesiredOp("d", p, 1, "console")), policy, 0);
    var report := Commit(ReportFlight(ReportOp("d", q, 0, 2, "gateway")), policy, 0);
    [AllocateDesired(p, "console"), AllocateReport(q, 0, "gateway")] +
    if writeFirst then [write, report] else [report, write]
  }

  lemma ExecFour(id: string, a: Action, b: Action, c: Action, d: Action)
    ensures Exec(id, [a, b] + [c, d]) == Next(Next(Next(Next(INITIAL, id, a), id, b), id, c), id, d)
  {
    var all := [a, b] + [c, d];
    assert all[..3][..2] == all[..2] && all[..2][..1] == all[..1] && all[..1][..0] == [];
    assert Exec(id, all[..1]) == Next(INITIAL, id, a);
    assert Exec(id, all[..2]) == Next(Exec(id, all[..1]), id, b);
    assert Exec(id, all[..3]) == Next(Exec(id, all[..2]), id, c);
  }

  /** A run in which the commit order decides whether the report is kept. */
  lemma ReportIsLostBehindWrite(p: Props, q: Props)
    ensures var lost, kept := Exec("d", BothOrders(p, q, true)), Exec("d", BothOrders(p, q, false));
            && lost.shadow.doc.Some? && kept.shadow.doc.Some?
            && lost.shadow.doc.value.reported == map[] && lost.shadow.doc.value.reportedVersion == 0
            && kept.shadow.doc.value.reported == q && kept.shadow.doc.value.reportedVersion == 2
            && lost.shadow.doc.value.desired == kept.shadow.doc.value.desired == p
  {
    var left, right := BothOrders(p, q, true), BothOrders(p, q, false);
    ExecFour("d", left[0], left[1], left[2], left[3]);
    ExecFour("d", right[0], right[1], right[2], right[3]);
    assert map[] + q == q;
  }

  /** An accepted report sets the overall version to its own exactly when its
      own is not below the current one. */
  lemma AcceptedReportSetsVersion(s: Shared, op: ReportOp, policy: Policy, now: int)
    requires Safe(s) && PassesGate(s, op, now)
    ensures var after := CommitReport(s.shadow, policy, op, now).doc;
            && after.Some?
            && (after.value.version == op.version <==> op.version >= Ensured(s.shadow, op.deviceID, now).version)
  {
  }

  /** Every report names a base version below the version it is given. */
  ghost predicate Honest(id: string, actions: seq<Action>) {
    forall k :: 0 <= k < |actions| && actions[k].AllocateReport? ==>
      actions[k].baseVersion <= Exec(id, actions[..k]).counter
  }

  /** Accepted reports form a chain: each is based on a version at or after the one its predecessor set. */
  ghost predicate Chained(s: Shared) {
    && (forall f :: f in s.flights && f.ReportFlight? ==> f.report.baseVersion < f.report.version)
    && (forall i :: 0 <= i < |s.accepted| ==>
          && s.accepted[i].baseVersion < s.accepted[i].version
          && s.shadow.doc.Some? && s.accepted[i].version <= s.shadow.doc.value.version)
    && (forall i, j :: 0 <= i < j < |s.accepted| ==> s.accepted[i].version <= s.accepted[j].baseVersion)
  }

  lemma ActionKeepsChain(s: Shared, id: string, action: Action)
    requires Safe(s) && Chained(s)
    requires action.AllocateReport? ==> action.baseVersion <= s.counter
    ensures Chained(Next(s, id, action))
  {
    if action.Commit? && action.flight in s.flights {
      match action.flight
      case DesiredFlight(op) =>
        var after := CommitDesired(s.shadow, op, action.now);
        assert s.shadow.doc.Some? ==> after.doc.value.version >= s.shadow.doc.value.version;
      case ReportFlight(op) =>
        LandedReportKeepsChain(s, op, action.policy, action.now);
    }
  }

  /** An accepted report sets the overall version to exactly its own. */
  lemma LandedReportKeepsChain(s: Shared, op: ReportOp, policy: Policy, now: int)
    requires Safe(s) && Chained(s) && ReportFlight(op) in s.flights
    ensures var after := Landed(s, ReportFlight(op), policy, now);
            && Chained(after)
            && (PassesGate(s, op, now) ==>
                  && after.accepted == s.accepted + [op]
                  && after.shadow.doc.Some? && after.shadow.doc.value.version == op.version)
  {
    assert op.baseVersion < op.version by {
      assert ReportFlight(op).report.baseVersion < ReportFlight(op).report.version;
    }
    if PassesGate(s, op, now) {
      AcceptedReportSetsVersion(s, op, policy, now);
    }
  }

  /** Accepted base versions strictly increase, so at most one report is
      accepted for each base; and each acceptance left the overall version at
      the accepted report's own version or later. */
  lemma {:induction false} ReportsCompareAndSet(id: string, actions: seq<Action>)
    requires Honest(id, actions)
    ensures Chained(Exec(id, actions))
    ensures var accepted := Exec(id, actions).accepted;
            forall i, j :: 0 <= i < j < |accepted| ==> accepted[i].baseVersion < accepted[j].baseVersion
  {
    if actions != [] {
      var last := |actions| - 1;
      forall k | 0 <= k < last ensures actions[..last][..k] == actions[..k] {
      }
      ReportsCompareAndSet(id, actions[..last]);
      EveryRunIsSafe(id, actions[..last]);
      ActionKeepsChain(Exec(id, actions[..last]), id, actions[last]);
    }
  }
}
