/** What a run leaves in the document of one device, told from the steps themselves. */
module Sections {
  import opened Model
  import opened Conflict
  import opened Shadow
  import opened Machine
  import opened Guarantees

  lemma RunOfPrefix(id: string, steps: seq<Step>, k: nat)
    requires k < |steps|
    ensures steps[..|steps| - 1][..k] == steps[..k]
    ensures Run(id, steps) == Apply(Run(id, steps[..|steps| - 1]), id, steps[|steps| - 1])
  {
  }

  // ---- One report ----

  /** The store takes a report on a shadow that is not tombstoned, when it is based
      on no less than either section version. */
  predicate Accepts(s: Shadow, baseVersion: int) {
    && s.tombstone.None?
    && match s.doc
       case None => baseVersion >= 0
       case Some(doc) => baseVersion >= doc.desiredVersion && baseVersion >= doc.reportedVersion
  }

  /** An accepted report replaces the section: full snapshots do, on exactly the reported version. */
  predicate Replaces(s: Shadow, policy: Policy, baseVersion: int) {
    policy.replaceSection && s.doc.Some? && baseVersion == s.doc.value.reportedVersion > 0
  }

  function ReportedAt(s: Shadow, key: string): Option<string> {
    if s.doc.Some? && key in s.doc.value.reported then Some(s.doc.value.reported[key]) else None
  }

  /** An accepted report sets the properties it names. Of the others it keeps the
      values, or drops all of them when it replaces the section. It takes the next version,
      and leaves the desired section alone. */
  lemma AcceptedReportSetsKeys(d: Device, id: string, step: Step, key: string)
    requires Ok(d) && step.Report? && Accepts(d.shadow, step.baseVersion)
    ensures var after := Apply(d, id, step).shadow;
            && after.doc.Some?
            && ReportedAt(after, key) ==
                 (if key in step.props then Some(step.props[key])
                  else if Replaces(d.shadow, step.policy, step.baseVersion) then None
                  else ReportedAt(d.shadow, key))
            && after.doc.value.reportedVersion == d.counter + 1
            && after.doc.value.version == d.counter + 1
            && after.doc.value.state == Synced
            && DesiredOf(after) == DesiredOf(d.shadow) && DesiredVersionOf(after) == DesiredVersionOf(d.shadow)
  {
  }

  /** Any other report takes a version too, and changes nothing that is stored. */
  lemma OtherReportChangesNothing(d: Device, id: string, step: Step)
    requires Ok(d) && step.Report? && !Accepts(d.shadow, step.baseVersion)
    ensures var after := Apply(d, id, step);
            && after.counter == d.counter + 1
            && after.shadow.log == d.shadow.log && after.shadow.tombstone == d.shadow.tombstone
            && (d.shadow.doc.Some? || d.shadow.tombstone.Some? ==> after.shadow == d.shadow)
            && (after.shadow.doc.Some? && d.shadow.doc.None? ==>
                  after.shadow.doc.value == Doc(id, map[], map[], 0, 0, 0, Created, step.now))
  {
  }

  // ---- The reported section over a run ----

  /** Step `k` settles the reported value of `key`: a delete, or an accepted report
      that names it or replaces the section. */
  predicate Settles(id: string, steps: seq<Step>, k: nat, key: string)
    requires k < |steps|
  {
    var s := Run(id, steps[..k]).shadow;
    || steps[k].Delete?
    || (&& steps[k].Report? && Accepts(s, steps[k].baseVersion)
        && (key in steps[k].props || Replaces(s, steps[k].policy, steps[k].baseVersion)))
  }

  lemma SettlesInPrefix(id: string, steps: seq<Step>, k: nat, key: string)
    requires k < |steps| - 1
    ensures Settles(id, steps[..|steps| - 1], k, key) == Settles(id, steps, k, key)
  {
    RunOfPrefix(id, steps, k);
  }

  lemma OtherStepKeepsReported(d: Device, id: string, step: Step, key: string)
    requires Ok(d) && !step.Report? && !step.Delete?
    ensures ReportedAt(Apply(d, id, step).shadow, key) == ReportedAt(d.shadow, key)
  {
    match step
    case Writes(batch, source, partial, now) => WritesKeepReported(d, id, batch, source, now, key);
    case Resume(now) => DeliverAllKeepsShadow(d, ResumeOps(d, id));
    case Reconcile(now) =>
      if d.handle.Some? {
        DeliverAllKeepsShadow(Drained(d), ReconcileOps(d, id));
      }
    case _ =>
  }

  lemma {:induction false} WritesKeepReported(d: Device, id: string, batch: seq<Props>, source: string, now: int, key: string)
    ensures ReportedAt(WriteAll(d, id, batch, source, now).shadow, key) == ReportedAt(d.shadow, key)
  {
    if batch != [] {
      WritesKeepReported(d, id, batch[..|batch| - 1], source, now, key);
    }
  }

  /** Over every run, the last step that settles a reported property decides it:
      it has the value that report gave it, or none after a delete and after a
      replacing report that does not name it. */
  lemma {:induction false} LastReportWins(id: string, steps: seq<Step>, k: nat, key: string)
    requires AllWellformed(steps)
    requires k < |steps| && Settles(id, steps, k, key)
    requires forall j :: k < j < |steps| ==> !Settles(id, steps, j, key)
    ensures ReportedAt(Run(id, steps).shadow, key) ==
              if steps[k].Report? && key in steps[k].props then Some(steps[k].props[key]) else None
  {
    hide Ok, Settles, Accepts, Replaces, ReportedAt;
    var last := |steps| - 1;
    var before := steps[..last];
    RunOfPrefix(id, steps, k);
    RunIsOk(id, before);
    if k < last {
      forall j | k <= j < last ensures Settles(id, before, j, key) == Settles(id, steps, j, key) && before[j] == steps[j] {
        SettlesInPrefix(id, steps, j, key);
      }
      LastReportWins(id, before, k, key);
      UnsettledStep(id, steps, key);
    } else {
      SettlingStep(id, steps, key);
    }
  }

  lemma UnsettledStep(id: string, steps: seq<Step>, key: string)
    requires steps != [] && !Settles(id, steps, |steps| - 1, key) && Ok(Run(id, steps[..|steps| - 1]))
    ensures ReportedAt(Run(id, steps).shadow, key) == ReportedAt(Run(id, steps[..|steps| - 1]).shadow, key)
  {
    hide Ok;
    var d, step := Run(id, steps[..|steps| - 1]), steps[|steps| - 1];
    if !step.Report? {
      OtherStepKeepsReported(d, id, step, key);
    } else if Accepts(d.shadow, step.baseVersion) {
      AcceptedReportSetsKeys(d, id, step, key);
    } else {
      OtherReportChangesNothing(d, id, step);
    }
  }

  lemma SettlingStep(id: string, steps: seq<Step>, key: string)
    requires steps != [] && Settles(id, steps, |steps| - 1, key) && Ok(Run(id, steps[..|steps| - 1]))
    ensures var step := steps[|steps| - 1];
            ReportedAt(Run(id, steps).shadow, key) ==
              if step.Report? && key in step.props then Some(step.props[key]) else None
  {
    hide Ok;
    var d, step := Run(id, steps[..|steps| - 1]), steps[|steps| - 1];
    if step.Report? {
      AcceptedReportSetsKeys(d, id, step, key);
    }
  }

  /** And a property that no step settles was never reported. */
  lemma {:induction false} UnsettledIsUnreported(id: string, steps: seq<Step>, key: string)
    requires AllWellformed(steps)
    requires forall j :: 0 <= j < |steps| ==> !Settles(id, steps, j, key)
    ensures ReportedAt(Run(id, steps).shadow, key) == None
  {
    hide Settles, ReportedAt;
    if steps != [] {
      var before := steps[..|steps| - 1];
      forall j | 0 <= j < |before| ensures !Settles(id, before, j, key) {
        SettlesInPrefix(id, steps, j, key);
      }
      RunIsOk(id, before);
      UnsettledIsUnreported(id, before, key);
      UnsettledStep(id, steps, key);
    } else {
      NothingReported(key);
    }
  }

  lemma NothingReported(key: string)
    ensures ReportedAt(NEW_DEVICE.shadow, key) == None
  {
  }

  // ---- The time of the last change ----

  /** The time step `k` stamps the document with: a write that the store takes does,
      a transaction likewise, and a report that is accepted or creates the document. */
  function Stamp(id: string, steps: seq<Step>, k: nat): Option<int>
    requires k < |steps|
  {
    var s := Run(id, steps[..k]).shadow;
    if s.tombstone.Some? then None
    else
      match steps[k]
      case Writes(batch, _, _, now) => if batch == [] then None else Some(now)
      case Transaction(_, now) => Some(now)
      case Report(_, baseVersion, _, _, now) => if s.doc.None? || Accepts(s, baseVersion) then Some(now) else None
      case _ => None
  }

  lemma StampInPrefix(id: string, steps: seq<Step>, k: nat)
    requires k < |steps| - 1
    ensures Stamp(id, steps[..|steps| - 1], k) == Stamp(id, steps, k)
  {
    RunOfPrefix(id, steps, k);
  }

  lemma {:induction false} WritesAreStamped(d: Device, id: string, batch: seq<Props>, source: string, now: int)
    requires batch != [] && d.shadow.tombstone.None?
    ensures var s := WriteAll(d, id, batch, source, now).shadow;
            && s.tombstone.None? && s.doc.Some? && s.doc.value.updatedAt == now
            && s.doc.value.deviceID == if d.shadow.doc.Some? then d.shadow.doc.value.deviceID else id
  {
    if |batch| > 1 {
      WritesAreStamped(d, id, batch[..|batch| - 1], source, now);
    } else {
      assert batch[..0] == [];
    }
  }

  /** What a step does to the identity and the time of the stored document. */
  lemma StampingStep(id: string, steps: seq<Step>)
    requires steps != [] && Ok(Run(id, steps[..|steps| - 1])) && Wellformed(steps[|steps| - 1])
    ensures var before, after := Run(id, steps[..|steps| - 1]).shadow.doc, Run(id, steps).shadow.doc;
            var stamp := Stamp(id, steps, |steps| - 1);
            && (stamp.Some? ==>
                  && after.Some? && after.value.updatedAt == stamp.value
                  && after.value.deviceID == if before.Some? then before.value.deviceID else id)
            && (stamp.None? && after.Some? ==>
                  && before.Some?
                  && after.value.updatedAt == before.value.updatedAt && after.value.deviceID == before.value.deviceID)
  {
    var d, step := Run(id, steps[..|steps| - 1]), steps[|steps| - 1];
    match step
    case Writes(batch, source, partial, now) =>
      if d.shadow.tombstone.Some? {
        WritesRefused(d, id, batch, source, now);
      } else if batch != [] {
        WritesAreStamped(d, id, batch, source, now);
      }
    case Resume(now) => DeliverAllKeepsShadow(d, ResumeOps(d, id));
    case Reconcile(now) =>
      if d.handle.Some? {
        DeliverAllKeepsShadow(Drained(d), ReconcileOps(d, id));
      }
    case _ =>
  }

  /** The stamp of a document is the last one of the run. */
  ghost predicate LastStamp(id: string, steps: seq<Step>, time: int) {
    exists k :: 0 <= k < |steps| && Stamp(id, steps, k) == Some(time) &&
                forall j :: k < j < |steps| ==> Stamp(id, steps, j).None?
  }

  lemma StillLastStamp(id: string, steps: seq<Step>, time: int)
    requires steps != [] && Stamp(id, steps, |steps| - 1).None? && LastStamp(id, steps[..|steps| - 1], time)
    ensures LastStamp(id, steps, time)
  {
    hide Stamp;
    var last := |steps| - 1;
    var k :| 0 <= k < last && Stamp(id, steps[..last], k) == Some(time)
             && forall j :: k < j < last ==> Stamp(id, steps[..last], j).None?;
    forall j | k <= j < last ensures Stamp(id, steps, j) == Stamp(id, steps[..last], j) {
      StampInPrefix(id, steps, j);
    }
  }

  /** Over every run, a stored document is the device's own, and its time is that
      of the last step that changed it. */
  lemma {:induction false} LastChangeIsStamped(id: string, steps: seq<Step>)
    requires AllWellformed(steps)
    requires Run(id, steps).shadow.doc.Some?
    ensures var doc := Run(id, steps).shadow.doc.value; doc.deviceID == id && LastStamp(id, steps, doc.updatedAt)
  {
    if steps != [] {
      hide Ok, Stamp, Apply;
      var last := |steps| - 1;
      var before := steps[..last];
      RunIsOk(id, before);
      StampingStep(id, steps);
      if Run(id, before).shadow.doc.Some? {
        LastChangeIsStamped(id, before);
      }
      if Stamp(id, steps, last).None? {
        StillLastStamp(id, steps, Run(id, steps).shadow.doc.value.updatedAt);
      } else {
        assert LastStamp(id, steps, Run(id, steps).shadow.doc.value.updatedAt);
      }
    }
  }
}
