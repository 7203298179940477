/** Version conflict rules: when an operation applies, and what it changes. */
module Conflict {
  import opened Model

  datatype OpKind = OpDesired | OpReport

  datatype Resolution = Resolution(applyDesired: bool, applyReported: bool)

  /** Reports from a snapshot source replace the reported section instead of merging into it. */
  datatype Policy = Policy(replaceSection: bool)

  function Resolve(currentDesired: int, currentReported: int, opVersion: int, kind: OpKind): Resolution {
    match kind
    case OpDesired =>
      if opVersion < currentDesired then Resolution(false, false) else Resolution(true, false)
    case OpReport =>
      if opVersion < currentReported then Resolution(false, false) else Resolution(false, true)
  }

  function MergedDesired(current: Doc, op: DesiredOp, now: int): Doc {
    if !Resolve(current.desiredVersion, current.reportedVersion, op.version, OpDesired).applyDesired then
      current.(updatedAt := now)
    else
      Refreshed(current.(desired := op.props,
                         desiredVersion := MaxVersion(current.desiredVersion, op.version),
                         state := Stale,
                         updatedAt := now))
  }

  function MergedReport(current: Doc, op: ReportOp, now: int): Doc {
    if !Resolve(current.desiredVersion, current.reportedVersion, op.baseVersion, OpReport).applyReported then
      current.(updatedAt := now)
    else
      Refreshed(current.(reported := current.reported + op.props,
                         reportedVersion := MaxVersion(current.reportedVersion, op.version),
                         state := Synced,
                         updatedAt := now))
  }

  function PolicyReport(policy: Policy, current: Doc, op: ReportOp, now: int): Doc {
    if policy.replaceSection && op.baseVersion == current.reportedVersion && op.baseVersion > 0 then
      Refreshed(current.(reported := op.props,
                         reportedVersion := MaxVersion(current.reportedVersion, op.version),
                         state := Synced,
                         updatedAt := now))
    else
      MergedReport(current, op, now)
  }

  /** Each property that was reported has the value it was reported with. */
  ghost predicate KeysTaken(props: Props, after: Props) {
    forall key :: key in props ==> key in after && after[key] == props[key]
  }

  /** Every other property is as it was. */
  ghost predicate KeysKept(props: Props, before: Props, after: Props) {
    forall key :: key !in props ==>
      (key in after <==> key in before) && (key in before ==> after[key] == before[key])
  }

  method MergeDesired(current: Document, op: DesiredOp, now: int) returns (out: Document)
    ensures fresh(out.Parts()) && out.desired != out.reported
    ensures out.Value() == MergedDesired(current.Value(), op, now)
    ensures op.version < current.desiredVersion ==> out.Value() == current.Value().(updatedAt := now)
    ensures op.version >= current.desiredVersion ==>
              && out.desired.entries == op.props && out.desiredVersion == op.version && out.state == Stale
              && out.version == MaxVersion(op.version, current.reportedVersion)
    ensures out.reported.entries == current.reported.entries && out.reportedVersion == current.reportedVersion
    ensures out.deviceID == current.deviceID && out.updatedAt == now
  {
    out := current.Clone();
    var res := Resolve(current.desiredVersion, current.reportedVersion, op.version, OpDesired);
    if !res.applyDesired {
      out.updatedAt := now;
      return;
    }
    out.desired := CloneMap(op.props);
    out.desiredVersion := MaxVersion(out.desiredVersion, op.version);
    out.state := Stale;
    out.RefreshWatermark();
    out.updatedAt := now;
  }

  method MergeReport(current: Document, op: ReportOp, now: int) returns (out: Document)
    ensures fresh(out.Parts()) && out.desired != out.reported
    ensures out.Value() == MergedReport(current.Value(), op, now)
    ensures op.baseVersion < current.reportedVersion ==> out.Value() == current.Value().(updatedAt := now)
    ensures op.baseVersion >= current.reportedVersion ==>
              && KeysTaken(op.props, out.reported.entries)
              && KeysKept(op.props, current.reported.entries, out.reported.entries)
              && out.reportedVersion == MaxVersion(current.reportedVersion, op.version) && out.state == Synced
              && out.version == MaxVersion(current.desiredVersion, out.reportedVersion)
    ensures out.desired.entries == current.desired.entries && out.desiredVersion == current.desiredVersion
    ensures out.deviceID == current.deviceID && out.updatedAt == now
  {
    out := current.Clone();
    var res := Resolve(current.desiredVersion, current.reportedVersion, op.baseVersion, OpReport);
    if !res.applyReported {
      out.updatedAt := now;
      return;
    }
    out.reported := MergeMaps(out.reported.entries, op.props);
    out.reportedVersion := MaxVersion(out.reportedVersion, op.version);
    out.state := Synced;
    out.RefreshWatermark();
    out.updatedAt := now;
  }

  method ApplyReport(policy: Policy, current: Document, op: ReportOp, now: int) returns (out: Document)
    ensures fresh(out.Parts()) && out.desired != out.reported
    ensures out.Value() == PolicyReport(policy, current.Value(), op, now)
    ensures op.baseVersion < current.reportedVersion ==> out.reported.entries == current.reported.entries
    ensures op.baseVersion >= current.reportedVersion && !(policy.replaceSection && op.baseVersion == current.reportedVersion > 0) ==>
              && KeysTaken(op.props, out.reported.entries)
              && KeysKept(op.props, current.reported.entries, out.reported.entries)
    ensures policy.replaceSection && op.baseVersion == current.reportedVersion > 0 ==> out.reported.entries == op.props
    ensures out.desired.entries == current.desired.entries && out.desiredVersion == current.desiredVersion
    ensures out.deviceID == current.deviceID && out.updatedAt == now
  {
    out := MergeReport(current, op, now);
    if policy.replaceSection && op.baseVersion == current.reportedVersion && op.baseVersion > 0 {
      out := current.Clone();
      out.reported := CloneMap(op.props);
      out.reportedVersion := MaxVersion(out.reportedVersion, op.version);
      out.state := Synced;
      out.RefreshWatermark();
      out.updatedAt := now;
    }
  }

  // ---- Section independence ----

  /** One merge, with the time it happens at. */
  datatype Op = DesiredMerge(write: DesiredOp, now: int) | ReportMerge(report: ReportOp, now: int)

  function Merged(policy: Policy, doc: Doc, op: Op): Doc {
    match op
    case DesiredMerge(d, now) => MergedDesired(doc, d, now)
    case ReportMerge(r, now) => PolicyReport(policy, doc, r, now)
  }

  /** The document after merging every op of `ops` in order. */
  function MergeAll(policy: Policy, doc: Doc, ops: seq<Op>): Doc {
    if ops == [] then doc
    else Merged(policy, MergeAll(policy, doc, ops[..|ops| - 1]), ops[|ops| - 1])
  }

  /** The desired writes (or the reports) of a mixed sequence, in their order. */
  function Section(ops: seq<Op>, desired: bool): seq<Op> {
    if ops == [] then []
    else
      var rest := Section(ops[..|ops| - 1], desired);
      if ops[|ops| - 1].DesiredMerge? == desired then rest + [ops[|ops| - 1]] else rest
  }

  predicate WatermarkOk(doc: Doc) {
    doc.version == MaxVersion(doc.desiredVersion, doc.reportedVersion)
  }

  /** A desired write touches the desired section only, and reads nothing of the other. */
  lemma WriteIsLocal(policy: Policy, a: Doc, b: Doc, op: Op)
    requires WatermarkOk(a) && op.DesiredMerge?
    ensures var next, other := Merged(policy, a, op), Merged(policy, b, op);
            && WatermarkOk(next)
            && next.reported == a.reported && next.reportedVersion == a.reportedVersion
            && (a.desired == b.desired && a.desiredVersion == b.desiredVersion ==>
                  next.desired == other.desired && next.desiredVersion == other.desiredVersion)
  {
  }

  /** A report touches the reported section only, and reads nothing of the other. */
  lemma ReportIsLocal(policy: Policy, a: Doc, b: Doc, op: Op)
    requires WatermarkOk(a) && op.ReportMerge?
    ensures var next, other := Merged(policy, a, op), Merged(policy, b, op);
            && WatermarkOk(next)
            && next.desired == a.desired && next.desiredVersion == a.desiredVersion
            && (a.reported == b.reported && a.reportedVersion == b.reportedVersion ==>
                  next.reported == other.reported && next.reportedVersion == other.reportedVersion)
  {
  }

  /** Running a mixed sequence gives, section by section, what running only the
      desired writes and only the reports would give. */
  lemma {:induction false} SectionsAreIndependent(policy: Policy, doc: Doc, ops: seq<Op>)
    requires WatermarkOk(doc)
    ensures WatermarkOk(MergeAll(policy, doc, ops))
    ensures var mixed, writes := MergeAll(policy, doc, ops), MergeAll(policy, doc, Section(ops, true));
            && WatermarkOk(writes)
            && mixed.desired == writes.desired
            && mixed.desiredVersion == writes.desiredVersion
            && writes.reported == doc.reported
            && writes.reportedVersion == doc.reportedVersion
    ensures var mixed, reports := MergeAll(policy, doc, ops), MergeAll(policy, doc, Section(ops, false));
            && WatermarkOk(reports)
            && mixed.reported == reports.reported
            && mixed.reportedVersion == reports.reportedVersion
            && reports.desired == doc.desired
            && reports.desiredVersion == doc.desiredVersion
  {
    if ops != [] {
      var last := |ops| - 1;
      var op, before := ops[last], MergeAll(policy, doc, ops[..last]);
      SectionsAreIndependent(policy, doc, ops[..last]);
      var rest := Section(ops[..last], op.DesiredMerge?);
      assert (rest + [op])[..|rest|] == rest;
      var alone := MergeAll(policy, doc, rest);
      if op.DesiredMerge? {
        WriteIsLocal(policy, before, alone, op);
        WriteIsLocal(policy, alone, before, op);
      } else {
        ReportIsLocal(policy, before, alone, op);
        ReportIsLocal(policy, alone, before, op);
      }
    }
  }

  /** Every interleaving of the same writes with the same reports ends with the
      same two sections and the same three versions. */
  lemma ShufflesAgree(policy: Policy, doc: Doc, left: seq<Op>, right: seq<Op>)
    requires WatermarkOk(doc)
    requires Section(left, true) == Section(right, true)
    requires Section(left, false) == Section(right, false)
    ensures var a, b := MergeAll(policy, doc, left), MergeAll(policy, doc, right);
            && a.desired == b.desired && a.reported == b.reported
            && a.desiredVersion == b.desiredVersion
            && a.reportedVersion == b.reportedVersion
            && a.version == b.version
  {
    SectionsAreIndependent(policy, doc, left);
    SectionsAreIndependent(policy, doc, right);
  }
}
