/** The guarantees of one device, for every device in every run of the service. */
module ServiceGuarantees {
  import opened Model
  import opened Replay
  import opened Machine
  import opened System
  import opened Guarantees
  import opened Completeness
  import opened Reconciling
  import opened Sections
  import opened Connectivity
  import opened Handover

  ghost function DeviceAfter(calls: seq<Call>, id: string): Device {
    RunCalls(calls).devices[id]
  }

  /** Nobody reconciles this device. */
  ghost predicate NeverReconciled(calls: seq<Call>, id: string) {
    forall i :: 0 <= i < |calls| && calls[i].ReconcileDevice? ==> calls[i].id != id
  }

  lemma {:induction false} NoReconcileSteps(calls: seq<Call>, id: string)
    requires NeverReconciled(calls, id)
    ensures NoReconcile(Steps(calls, id))
  {
    if calls != [] {
      NoReconcileSteps(calls[..|calls| - 1], id);
    }
  }

  /** Across direct writes, batches, retries, transactions and resumes, a device
      that is never reconciled receives strictly increasing versions, up to its watermark. */
  lemma ServiceDeliversInOrder(calls: seq<Call>, id: string)
    requires NeverReconciled(calls, id)
    ensures var d := DeviceAfter(calls, id);
            && Increasing(d.sent)
            && (d.handle.Some? ==>
                  d.handle.value.lastDelivered == if d.sent == [] then 0 else d.sent[|d.sent| - 1].version)
  {
    CallsAreSteps(calls, id);
    NoReconcileSteps(calls, id);
    DeliveriesAreOrdered(id, Steps(calls, id));
  }

  lemma RunOneCall(calls: seq<Call>, call: Call)
    ensures RunCalls(calls + [call]) == CallStep(RunCalls(calls), call)
  {
    assert (calls + [call])[..|calls|] == calls;
  }

  lemma RunTwoMore(calls: seq<Call>, first: Call, second: Call)
    ensures RunCalls(calls + [first, second]) == CallStep(CallStep(RunCalls(calls), first), second)
  {
    var all := calls + [first, second];
    assert all[..|all| - 1] == calls + [first];
    assert (calls + [first])[..|calls|] == calls;
  }

  lemma ThenReconnect(calls: seq<Call>, id: string, now: int)
    ensures DeviceAfter(calls + [SetConnected(id, true), ResumeDevice(id, now)], id)
            == Reconnected(DeviceAfter(calls, id), id, now)
  {
    hide RunCalls, Apply;
    RunTwoMore(calls, SetConnected(id, true), ResumeDevice(id, now));
  }

  lemma ThenTransact(calls: seq<Call>, id: string, props: Props, now: int)
    requires props != map[]
    ensures DeviceAfter(calls + [ApplyTransactional(id, props, now)], id)
            == Apply(DeviceAfter(calls, id), id, Transaction(props, now))
  {
    hide RunCalls, Apply;
    RunOneCall(calls, ApplyTransactional(id, props, now));
  }

  lemma ThenReconcile(calls: seq<Call>, id: string, now: int)
    ensures DeviceAfter(calls + [ReconcileDevice(id, now)], id) == Apply(DeviceAfter(calls, id), id, Reconcile(now))
  {
    hide RunCalls, Apply;
    RunOneCall(calls, ReconcileDevice(id, now));
  }

  /** Whatever the service did before, a reconnect brings a registered device to
      its stored desired version, when that can still be handed over. */
  lemma ServiceConverges(calls: seq<Call>, id: string, now: int)
    requires var d := DeviceAfter(calls, id);
             d.handle.Some? && DesiredVersionOf(d.shadow) > 0 && Reachable(d)
    ensures var after := DeviceAfter(calls + [SetConnected(id, true), ResumeDevice(id, now)], id);
            && after.shadow.doc == DeviceAfter(calls, id).shadow.doc
            && Converged(after, id)
            && (forall i :: 0 <= i < |after.sent| && IsLatest(after.sent[i], after) ==>
                  (after.sent[i].props == DesiredOf(after.shadow) <==> StandsAsWritten(id, Steps(calls, id))))
            && (NeverReconciled(calls, id) ==> Increasing(after.sent))
  {
    hide Converged, Reachable, Increasing, StandsAsWritten, IsLatest, RunCalls, Run, Reconnected;
    CallsAreSteps(calls, id);
    ReconnectConverges(id, Steps(calls, id), now);
    ThenReconnect(calls, id, now);
    if NeverReconciled(calls, id) {
      NoReconcileSteps(calls, id);
    }
  }

  /** Where a transaction of the service ends: the server's reconnect hands it over
      last, and the device then holds the stored desired section if and only if it
      was connected at the transaction, or the transaction changed nothing. */
  lemma ServiceTransactionReaches(calls: seq<Call>, id: string, props: Props, now: int, later: int)
    requires NeverReconciled(calls, id) && props != map[]
    requires var d := DeviceAfter(calls, id); d.handle.Some? && d.shadow.tombstone.None?
    ensures var d := DeviceAfter(calls, id);
            var after := DeviceAfter(calls + [ApplyTransactional(id, props, now)]
                                     + [SetConnected(id, true), ResumeDevice(id, later)], id);
            && after.sent != []
            && var last := after.sent[|after.sent| - 1];
               && last.version == DesiredVersionOf(after.shadow) && last.props == props
               && (last.props == DesiredOf(after.shadow) <==> IsConnected(d) || props == DesiredOf(d.shadow))
  {
    hide RunCalls, Run, Apply, Reconnected, NeverReconciled;
    CallsAreSteps(calls, id);
    NoReconcileSteps(calls, id);
    TransactionReachesDevice(id, Steps(calls, id), props, now, later);
    ThenTransact(calls, id, props, now);
    ThenReconnect(calls + [ApplyTransactional(id, props, now)], id, later);
  }

  // ---- Life cycle and reconcile ----

  /** The life cycle of every stored document, over batches, retries, transactions and reconnects. */
  lemma ServiceStateFollowsVersions(calls: seq<Call>, id: string)
    ensures var d := DeviceAfter(calls, id);
            d.shadow.doc.Some? ==>
              var doc := d.shadow.doc.value;
              && d.shadow.tombstone.None?
              && doc.version == MaxVersion(doc.desiredVersion, doc.reportedVersion) <= d.counter
              && (doc.state == Created <==> doc.version == 0)
              && (doc.state == Created ==> doc.desired == map[] && doc.reported == map[])
              && (doc.state == Stale ==> doc.desiredVersion > doc.reportedVersion)
              && (doc.state == Synced ==> doc.reportedVersion > doc.desiredVersion || doc.desired == map[])
              && doc.state != State.Deleted
  {
    CallsAreSteps(calls, id);
    StateFollowsVersions(id, Steps(calls, id));
  }

  /** A reported property has the value of the last accepted report that named it, or none after
      a delete or a full snapshot without it. */
  lemma ServiceShowsLastReport(calls: seq<Call>, id: string, k: nat, key: string)
    requires k < |Steps(calls, id)| && Settles(id, Steps(calls, id), k, key)
    requires forall j :: k < j < |Steps(calls, id)| ==> !Settles(id, Steps(calls, id), j, key)
    ensures var step := Steps(calls, id)[k];
            ReportedAt(DeviceAfter(calls, id).shadow, key) ==
              if step.Report? && key in step.props then Some(step.props[key]) else None
  {
    hide Settles, ReportedAt, RunCalls, Run;
    CallsAreSteps(calls, id);
    LastReportWins(id, Steps(calls, id), k, key);
  }

  /** Whether a device is connected follows from its registration and the last change of its flag. */
  lemma ServiceConnects(calls: seq<Call>, id: string)
    ensures IsConnected(DeviceAfter(calls, id)) <==> StaysConnected(Steps(calls, id))
    ensures DeviceAfter(calls, id).handle.Some? <==> IsRegistered(Steps(calls, id))
  {
    hide RunCalls, Run, StaysConnected, IsRegistered;
    CallsAreSteps(calls, id);
    ConnectedByLastSetting(id, Steps(calls, id));
    RegisteredInRun(id, Steps(calls, id));
  }

  /** When the calls treat a device as they should (registered before its first
      write, every return online reconciled, never resumed), it has received
      everything issued but what waits in its cache: none lost, none twice, in order. */
  lemma ServiceLosesNothing(calls: seq<Call>, id: string)
    requires Disciplined(Steps(calls, id))
    ensures var d := DeviceAfter(calls, id);
            match d.handle
            case None => d.issued == []
            case Some(h) => d.issued == d.sent + h.cache
    ensures Increasing(DeviceAfter(calls, id).issued)
  {
    CallsAreSteps(calls, id);
    NothingLostNothingTwice(id, Steps(calls, id));
  }

  /** What a reconcile of a connected device does, after any run of calls. */
  lemma ServiceReconciles(calls: seq<Call>, id: string, now: int)
    requires IsConnected(DeviceAfter(calls, id))
    ensures var d := DeviceAfter(calls, id);
            var after := DeviceAfter(calls + [ReconcileDevice(id, now)], id);
            var plan := ReconcileOps(d, id);
            && after.handle.Some? && after.handle.value.cache == []
            && after.sent == d.sent + plan
            && (forall i, j :: 0 <= i < j < |plan| ==> plan[i].version != plan[j].version)
            && (Versions(plan) !! Versions(d.sent) <==> Versions(d.handle.value.cache) !! Versions(d.sent))
            && after.handle.value.lastDelivered == MaxVersion(d.handle.value.lastDelivered, Highest(plan))
  {
    hide Ok, Apply, Run, RunCalls, ReconcileOps, OnlineOps, Highest, Versions;
    CallsAreSteps(calls, id);
    RunIsOk(id, Steps(calls, id));
    ReconcileDeliversPlan(DeviceAfter(calls, id), id, now);
    ReconcileRepeats(DeviceAfter(calls, id), id, now);
    ThenReconcile(calls, id, now);
  }

  /** The steps that the further calls `more` take the device by. */
  ghost function Rest(calls: seq<Call>, more: seq<Call>, id: string): seq<Step> {
    if more == [] then []
    else
      var before := more[..|more| - 1];
      Rest(calls, before, id) + Effect(RunCalls(calls + before), more[|more| - 1], id)
  }

  lemma {:induction false} StepsExtend(calls: seq<Call>, more: seq<Call>, id: string)
    ensures Steps(calls + more, id) == Steps(calls, id) + Rest(calls, more, id)
  {
    hide Effect, RunCalls;
    if more == [] {
      assert calls + more == calls;
    } else {
      assert (calls + more)[..|calls + more| - 1] == calls + more[..|more| - 1];
      StepsExtend(calls, more[..|more| - 1], id);
    }
  }

  lemma DeviceAfterMore(calls: seq<Call>, more: seq<Call>, id: string)
    ensures DeviceAfter(calls + more, id) == ApplyAll(DeviceAfter(calls, id), id, Rest(calls, more, id))
  {
    hide Steps, Rest, Apply, RunCalls;
    StepsExtend(calls, more, id);
    CallsAreSteps(calls, id);
    CallsAreSteps(calls + more, id);
    ApplyAllConcat(NEW_DEVICE, id, Steps(calls, id), Rest(calls, more, id));
  }

  /** A device that was up to date, and whose shadow is not deleted meanwhile, gets everything it
      has missed on its next reconnect, when that makes at most 20 events. */
  lemma ServiceHandsOver(calls: seq<Call>, more: seq<Call>, id: string, now: int)
    requires UpToDate(DeviceAfter(calls, id)) && NoDelete(Rest(calls, more, id))
    requires |DeviceAfter(calls + more, id).shadow.log| <= |DeviceAfter(calls, id).shadow.log| + 20
    ensures var d := DeviceAfter(calls + more, id);
            && d.handle.Some?
            && DeviceAfter(calls + more + [SetConnected(id, true), ResumeDevice(id, now)], id).sent ==
                 d.sent + Missed(d.issued, id, d.handle.value.lastDelivered)
  {
    hide RunCalls, Run, UpToDate, NoDelete, Missed, Reconnected, Steps, Rest;
    StepsExtend(calls, more, id);
    CallsAreSteps(calls, id);
    CallsAreSteps(calls + more, id);
    RestIsWellformed(calls, more, id);
    NothingMissedWithinWindow(id, Steps(calls, id), Rest(calls, more, id), now);
    ThenReconnect(calls + more, id, now);
  }

  lemma RestIsWellformed(calls: seq<Call>, more: seq<Call>, id: string)
    requires AllWellformed(Steps(calls + more, id)) && Steps(calls + more, id) == Steps(calls, id) + Rest(calls, more, id)
    ensures AllWellformed(Rest(calls, more, id))
  {
    hide Steps, Rest;
    var all, rest := Steps(calls + more, id), Rest(calls, more, id);
    assert forall i :: 0 <= i < |rest| ==> rest[i] == all[|Steps(calls, id)| + i];
  }

  /** After a delete, nothing the service does recreates the shadow, until a
      collection with a cutoff above the latest deletion time. */
  lemma ServiceKeepsDeleted(calls: seq<Call>, more: seq<Call>, id: string, deletedAt: int)
    requires var s := DeviceAfter(calls, id).shadow; s.doc.None? && s.tombstone == Some(deletedAt)
    requires KeepsTombstone(deletedAt, Rest(calls, more, id))
    ensures var s := DeviceAfter(calls + more, id).shadow;
            s.doc.None? && s.tombstone == Some(LatestDelete(deletedAt, Rest(calls, more, id)))
  {
    DeviceAfterMore(calls, more, id);
    DeletedStaysDeleted(DeviceAfter(calls, id), id, deletedAt, Rest(calls, more, id));
  }
}
