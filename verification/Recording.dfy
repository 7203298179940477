/** The history of one device: what each step adds to it, and what a reconnect
    hands over from it. */
module Recording {
  import opened Model
  import opened Shadow
  import opened Replay
  import opened Machine
  import opened Guarantees
  import opened Sections

  // ---- The window ----

  /** The capped history holds the last 20 events, and all of them up to 20. */
  lemma WindowIsLastTwenty<T>(log: seq<T>, i: nat)
    ensures |Window(log)| == if |log| <= 20 then |log| else 20
    ensures i < |Window(log)| ==> Window(log)[i] == log[|log| - |Window(log)| + i]
    ensures |log| <= 20 ==> Window(log) == log
    ensures |log| > 20 ==> Window(log) == log[|log| - 20..]
  {
  }

  // ---- What each step records ----

  /** The event of the `k`-th write of a batch to one device. */
  ghost predicate RecordsWrite(event: Event, id: string, props: Props, version: int, now: int) {
    && event.deviceID == id && event.kind == EventDesired && event.version == version && event.occurredAt == now
    && event.snapshot.Some? && event.snapshot.value.desired == props
    && event.snapshot.value.desiredVersion == event.snapshot.value.version == version
  }

  ghost predicate OwnDoc(d: Device, id: string) {
    d.shadow.doc.Some? ==> d.shadow.doc.value.deviceID == id
  }

  lemma RunIsOwn(id: string, steps: seq<Step>)
    requires AllWellformed(steps)
    ensures OwnDoc(Run(id, steps), id)
  {
    if Run(id, steps).shadow.doc.Some? {
      LastChangeIsStamped(id, steps);
    }
  }

  lemma WriteIsRecorded(d: Device, id: string, props: Props, source: string, now: int)
    requires Ok(d) && OwnDoc(d, id)
    ensures var after := Write(d, id, props, source, now).0;
            if d.shadow.tombstone.Some? then after.shadow == d.shadow
            else
              && |after.shadow.log| == |d.shadow.log| + 1 && after.shadow.log[..|d.shadow.log|] == d.shadow.log
              && RecordsWrite(after.shadow.log[|d.shadow.log|], id, props, d.counter + 1, now)
              && after.shadow.doc == after.shadow.log[|d.shadow.log|].snapshot
              && after.shadow.tombstone.None? && OwnDoc(after, id)
    ensures Write(d, id, props, source, now).0.counter == d.counter + 1
  {
  }

  /** What a batch of writes to one device adds to a log. */
  ghost predicate RecordsWrites(log: seq<Event>, before: seq<Event>, id: string, batch: seq<Props>, counter: int, now: int) {
    && |log| == |before| + |batch| && log[..|before|] == before
    && forall k :: 0 <= k < |batch| ==> RecordsWrite(log[|before| + k], id, batch[k], counter + k + 1, now)
  }

  lemma RecordsOneMore(log: seq<Event>, middle: seq<Event>, before: seq<Event>, id: string, batch: seq<Props>, counter: int, now: int)
    requires batch != [] && RecordsWrites(middle, before, id, batch[..|batch| - 1], counter, now)
    requires |log| == |middle| + 1 && log[..|middle|] == middle
    requires RecordsWrite(log[|middle|], id, batch[|batch| - 1], counter + |batch|, now)
    ensures RecordsWrites(log, before, id, batch, counter, now)
  {
    hide RecordsWrite;
    assert log[..|before|] == middle[..|before|];
    forall k | 0 <= k < |batch| - 1 ensures RecordsWrite(log[|before| + k], id, batch[k], counter + k + 1, now) {
      assert log[|before| + k] == middle[|before| + k] && batch[k] == batch[..|batch| - 1][k];
    }
  }

  /** Every write of a batch that the store takes is recorded, in order, under its own version. */
  lemma {:induction false} WritesAreRecorded(d: Device, id: string, batch: seq<Props>, source: string, now: int)
    requires Ok(d) && OwnDoc(d, id)
    ensures var after := WriteAll(d, id, batch, source, now);
            && after.counter == d.counter + |batch| && OwnDoc(after, id)
            && after.shadow.tombstone == d.shadow.tombstone
            && if d.shadow.tombstone.Some? then after.shadow == d.shadow
               else RecordsWrites(after.shadow.log, d.shadow.log, id, batch, d.counter, now)
  {
    if batch != [] {
      hide Ok, OwnDoc, RecordsWrite, RecordsWrites, Write;
      var last := |batch| - 1;
      var before := WriteAll(d, id, batch[..last], source, now);
      WritesAreRecorded(d, id, batch[..last], source, now);
      WriteAllKeepsOk(d, id, batch[..last], source, now);
      WriteIsRecorded(before, id, batch[last], source, now);
      if d.shadow.tombstone.None? {
        var log := WriteAll(d, id, batch, source, now).shadow.log;
        RecordsOneMore(log, before.shadow.log, d.shadow.log, id, batch, d.counter, now);
      }
    }
  }

  /** The larger of the two section versions of a stored document, or 0. */
  function LargerVersion(doc: Option<Doc>): int {
    match doc
    case None => 0
    case Some(doc) => if doc.desiredVersion > doc.reportedVersion then doc.desiredVersion else doc.reportedVersion
  }

  /** The overall version that the service answers with. */
  lemma VersionIsLarger(d: Device)
    requires Ok(d)
    ensures CurrentVersion(d.shadow) == LargerVersion(d.shadow.doc)
  {
  }

  /** What a step adds to the history of its device. A desired write, a report that
      is accepted, a delete and a reconnect are one event each; nothing else is recorded,
      and nothing is ever taken back, not even the write of a failed transaction. */
  lemma StepIsRecorded(d: Device, id: string, step: Step)
    requires Ok(d) && OwnDoc(d, id) && Wellformed(step)
    ensures var s, after := d.shadow, Apply(d, id, step).shadow;
            match step
            case Writes(batch, _, _, now) =>
              if s.tombstone.Some? then after.log == s.log
              else RecordsWrites(after.log, s.log, id, batch, d.counter, now)
            case Transaction(props, now) =>
              if s.tombstone.Some? then after.log == s.log
              else RecordsWrites(after.log, s.log, id, [props], d.counter, now)
            case Report(_, baseVersion, _, _, now) =>
              if !Accepts(s, baseVersion) then after.log == s.log
              else after.log == s.log + [Event(id, EventReport, d.counter + 1, after.doc, now)]
            case Delete(now) => after.log == s.log + [Event(id, EventDelete, 0, None, now)]
            case Resume(now) => after.log == s.log +
              if d.handle.None? then [] else [Event(id, EventReconnect, LargerVersion(s.doc), s.doc, now)]
            case Reconcile(now) => after.log == s.log +
              if d.handle.None? then [] else [Event(id, EventReconnect, LargerVersion(s.doc), s.doc, now)]
            case _ => after.log == s.log
  {
    hide RecordsWrite, DeliverAll, OnlineOps, Plan;
    match step
    case Writes(batch, source, partial, now) => WritesAreRecorded(d, id, batch, source, now);
    case Transaction(props, now) => WriteIsRecorded(d, id, props, "transaction", now);
    case Report(_, _, _, _, _) => ReportIsRecorded(d, id, step);
    case Resume(now) =>
      VersionIsLarger(d);
      DeliverAllKeepsShadow(d, ResumeOps(d, id));
    case Reconcile(now) =>
      VersionIsLarger(d);
      if d.handle.Some? {
        DeliverAllKeepsShadow(Drained(d), ReconcileOps(d, id));
      }
    case _ =>
  }

  lemma ReportIsRecorded(d: Device, id: string, step: Step)
    requires Ok(d) && OwnDoc(d, id) && step.Report?
    ensures var s, after := d.shadow, Apply(d, id, step).shadow;
            if !Accepts(s, step.baseVersion) then after.log == s.log
            else after.log == s.log + [Event(id, EventReport, d.counter + 1, after.doc, step.now)]
  {
    if Accepts(d.shadow, step.baseVersion) {
      AcceptedReportSetsKeys(d, id, step, "");
    } else {
      OtherReportChangesNothing(d, id, step);
    }
  }

  // ---- The history shows what is stored ----

  /** This event carries the stored document, but for a desired section that a
      failed transaction was rolled back from. */
  predicate ShowsDoc(event: Event, doc: Doc, undone: Option<Undo>) {
    && event.snapshot.Some? && event.version == doc.version
    && var snap := event.snapshot.value;
       && snap.reported == doc.reported && snap.reportedVersion == doc.reportedVersion
       && snap.desiredVersion == doc.desiredVersion && snap.version == doc.version
       && (snap.desired == doc.desired || undone == Some(Undo(snap.desired, doc.desired)))
  }

  /** The latest event that is no reconnect does. */
  ghost predicate ShowsStored(s: Shadow, undone: Option<Undo>) {
    s.doc.Some? && s.doc.value.version > 0 ==>
      exists k :: 0 <= k < |s.log| && ShowsDoc(s.log[k], s.doc.value, undone) &&
                  forall j :: k < j < |s.log| ==> s.log[j].kind == EventReconnect
  }

  lemma StillShown(s: Shadow, event: Event, undone: Option<Undo>)
    requires ShowsStored(s, undone) && event.kind == EventReconnect
    ensures ShowsStored(s.(log := s.log + [event]), undone)
  {
    if s.doc.Some? && s.doc.value.version > 0 {
      var k :| 0 <= k < |s.log| && ShowsDoc(s.log[k], s.doc.value, undone) &&
               forall j :: k < j < |s.log| ==> s.log[j].kind == EventReconnect;
      assert (s.log + [event])[k] == s.log[k];
    }
  }

  lemma LastShows(s: Shadow, undone: Option<Undo>)
    requires s.log != [] && (s.doc.Some? ==> ShowsDoc(s.log[|s.log| - 1], s.doc.value, undone))
    ensures ShowsStored(s, undone)
  {
  }

  lemma WritesAreShown(d: Device, id: string, step: Step)
    requires Ok(d) && OwnDoc(d, id) && step.Writes? && Wellformed(step)
    requires step.batch != [] && d.shadow.tombstone.None?
    ensures ShowsStored(Apply(d, id, step).shadow, None)
  {
    hide Ok, OwnDoc, RecordsWrite, Write;
    var front := step.batch[..|step.batch| - 1];
    var before := WriteAll(d, id, front, step.source, step.now);
    WritesAreRecorded(d, id, front, step.source, step.now);
    WriteAllKeepsOk(d, id, front, step.source, step.now);
    WriteIsShown(before, id, step.batch[|front|], step.source, step.now);
    LastShows(Apply(d, id, step).shadow, None);
  }

  lemma WriteIsShown(d: Device, id: string, props: Props, source: string, now: int)
    requires Ok(d) && d.shadow.tombstone.None?
    ensures var s := Write(d, id, props, source, now).0.shadow;
            s.log != [] && s.doc.Some? && ShowsDoc(s.log[|s.log| - 1], s.doc.value, None)
  {
  }

  lemma TransactionIsShown(d: Device, id: string, props: Props, now: int)
    requires Ok(d)
    ensures ShowsStored(Apply(d, id, Transaction(props, now)).shadow, UndoneBy(d, Transaction(props, now), None))
  {
    var s := Apply(d, id, Transaction(props, now)).shadow;
    if d.shadow.tombstone.None? {
      LastShows(s, UndoneBy(d, Transaction(props, now), None));
    }
  }

  lemma ReportIsShown(d: Device, id: string, step: Step, undone: Option<Undo>)
    requires Ok(d) && OwnDoc(d, id) && step.Report? && ShowsStored(d.shadow, undone)
    ensures ShowsStored(Apply(d, id, step).shadow, undone)
  {
    if Accepts(d.shadow, step.baseVersion) {
      AcceptedReportSetsKeys(d, id, step, "");
      ReportIsRecorded(d, id, step);
      LastShows(Apply(d, id, step).shadow, undone);
    } else {
      OtherReportChangesNothing(d, id, step);
    }
  }

  lemma ReconnectIsShown(d: Device, id: string, ops: seq<DesiredOp>, now: int, undone: Option<Undo>)
    requires ShowsStored(d.shadow, undone)
    ensures ShowsStored(Replayed(d, id, ops, now).shadow, undone)
  {
    hide ShowsStored, DeliverAll;
    DeliverAllKeepsShadow(d, ops);
    StillShown(d.shadow, Event(id, EventReconnect, CurrentVersion(d.shadow), d.shadow.doc, now), undone);
  }

  /** Over every run, the latest event that is no reconnect carries the stored
      document, versions and both sections, except that its desired section is the one a
      failed transaction wrote when the store has rolled that back. */
  lemma {:induction false} HistoryShowsStored(id: string, steps: seq<Step>)
    requires AllWellformed(steps)
    ensures ShowsStored(Run(id, steps).shadow, LastUndone(id, steps))
  {
    if steps != [] {
      var before, step := steps[..|steps| - 1], steps[|steps| - 1];
      var d := Run(id, before);
      RunIsOk(id, before);
      RunIsOwn(id, before);
      HistoryShowsStored(id, before);
      StepIsShown(d, id, step, LastUndone(id, before));
    }
  }

  lemma StepIsShown(d: Device, id: string, step: Step, undone: Option<Undo>)
    requires Ok(d) && OwnDoc(d, id) && Wellformed(step) && ShowsStored(d.shadow, undone)
    ensures ShowsStored(Apply(d, id, step).shadow, UndoneBy(d, step, undone))
  {
    hide Ok, OwnDoc, DeliverAll, OnlineOps, Plan;
    match step
    case Writes(batch, source, partial, now) =>
      if d.shadow.tombstone.Some? {
        WritesRefused(d, id, batch, source, now);
        NoDocument(d);
      } else if batch != [] {
        WritesAreShown(d, id, step);
      }
    case Transaction(props, now) => TransactionIsShown(d, id, props, now);
    case Report(_, _, _, _, _) => ReportIsShown(d, id, step, undone);
    case Resume(now) =>
      if d.handle.Some? {
        ReconnectIsShown(d, id, ResumeOps(d, id), now, undone);
      }
    case Reconcile(now) =>
      if d.handle.Some? {
        ReconnectIsShown(Drained(d), id, ReconcileOps(d, id), now, undone);
      }
    case _ =>
  }

  lemma NoDocument(d: Device)
    requires Ok(d) && d.shadow.tombstone.Some?
    ensures d.shadow.doc.None?
  {
  }
}
