/** The services: they allocate versions, commit to the store and deliver. Each
    method is proved to take the whole system by the step of the system model. */
module Services {
  import opened Model
  import opened Conflict
  import opened Shadow
  import opened Handles
  import opened Replay
  import opened Stores
  import opened Batches
  import opened System
  import M = Machine
  import D = Devices

  /** Hands out strictly increasing versions for each device. */
  class VersionAllocator {
    var next: map<string, int>

    function Counter(id: string): int
      reads this
    {
      if id in next then next[id] else 0
    }

    constructor ()
      ensures next == map[]
    {
      next := map[];
    }

    method Next(id: string) returns (version: int)
      modifies this
      ensures version == old(Counter(id)) + 1
      ensures forall other :: Counter(other) == if other == id then version else old(Counter(other))
    {
      version := Counter(id) + 1;
      next := next[id := version];
    }
  }

  lemma ReconcileIsReplayed(d: M.Device, id: string, now: int)
    ensures M.Apply(d, id, M.Reconcile(now)) ==
              if d.handle.None? then d else M.Replayed(M.Drained(d), id, M.ReconcileOps(d, id), now)
  {
  }

  /** Draining the cache does not change what the history adds to it. */
  lemma DrainKeepsOnlineOps(d: M.Device, id: string)
    requires d.handle.Some?
    ensures M.Drained(d).handle.Some?
    ensures M.ReconcileOps(d, id) == Plan(d.handle.value.cache + M.OnlineOps(M.Drained(d), id))
  {
  }

  lemma ResumeIsReplayed(d: M.Device, id: string, now: int)
    ensures M.Apply(d, id, M.Resume(now)) ==
              if d.handle.None? then d else M.Replayed(d, id, M.ResumeOps(d, id), now)
  {
  }

  lemma ReportIsTaken(d: M.Device, id: string, props: Props, baseVersion: int, clientID: string, policy: Policy, now: int)
    ensures M.Apply(d, id, M.Report(props, baseVersion, clientID, policy, now)) ==
              M.TakeReport(d, policy, ReportOp(id, props, baseVersion, d.counter + 1, clientID), now)
  {
  }

  class SyncService {
    const versions: VersionAllocator
    const store: Store
    const registry: D.Registry

    /** For each device, every op issued, and every op whose delivery succeeded. */
    ghost var issued: map<string, seq<DesiredOp>>
    ghost var sent: map<string, seq<DesiredOp>>

    ghost predicate Valid()
      reads store`documents, store`tombstones, store`history, store`ledger, store.ledger.live.docs
      reads store.ledger.past.docs, store.ledger.past.maps, registry`devices, registry`owned
    {
      store.Valid() && registry.Valid()
    }

    /** The state of one device across all components. */
    ghost function View(id: string): M.Device
      reads `issued, `sent, versions, store`documents, store`tombstones, store`ledger, registry`devices
      reads if id in store.documents then {store.documents[id]} else {}, store.Parts(id)
      reads registry.Parts(id)
    {
      M.Device(versions.Counter(id), store.View(id), registry.View(id), Get(issued, id), Get(sent, id))
    }

    /** The devices are, one by one, those of the fleet. */
    ghost predicate Shows(fleet: Fleet)
      requires Valid()
      reads `issued, `sent, versions, store`documents, store`tombstones, store`history, store`ledger, store.ledger.live.docs
      reads store.ledger.past.docs, store.ledger.past.maps, store.ledger.live.docs, store.ledger.live.maps
      reads registry`devices, registry`owned, registry.owned
    {
      forall id :: assert registry.Parts(id) <= registry.owned;
                   assert StoredFor(store.documents, store.tombstones, store.ledger.live, id);
                   View(id) == fleet[id]
    }

    /** Whatever happens to other objects, the devices stay as they are. */
    twostate lemma StaysApart(fleet: Fleet)
      requires old(Valid()) && old(Shows(fleet))
      requires unchanged(this) && unchanged(versions) && unchanged(store) && unchanged(registry)
      requires unchanged(store.ledger.live.docs) && unchanged(store.ledger.live.maps)
      requires unchanged(store.ledger.past.docs) && unchanged(store.ledger.past.maps) && unchanged(registry.owned)
      ensures Valid() && Shows(fleet)
    {
      store.OutsideChangesNothing();
      forall id ensures View(id) == fleet[id] {
        assert old(View(id)) == fleet[id];
      }
    }

    constructor ()
      ensures Valid() && fresh(versions) && fresh(store) && fresh(registry)
      ensures forall id :: View(id) == M.NEW_DEVICE
      ensures store.ledger == FRESH && registry.devices == map[]
    {
      versions := new VersionAllocator();
      store := new Store();
      registry := new D.Registry();
      issued, sent := map[], map[];
    }

    lemma PartsAreOwned(id: string)
      requires Valid()
      ensures registry.Parts(id) <= registry.owned
    {
    }

    /** Puts an op in the cache of a device. */
    method CacheFor(id: string, op: DesiredOp)
      requires Valid() && id in registry.devices
      modifies registry.Parts(id)
      ensures Valid() && store.ledger == old(store.ledger)
      ensures forall other :: View(other) ==
                var d := old(View(other));
                if other == id then d.(handle := Some(Cached(d.handle.value, op))) else d
    {
      hide StoredFor, Recorded, Cached;
      registry.devices[id].CacheDesired(op);
    }

    /** Hands an op to a device. */
    method HandTo(id: string, op: DesiredOp)
      requires Valid() && id in registry.devices
      modifies this`sent, registry.Parts(id)
      ensures Valid() && store.ledger == old(store.ledger)
      ensures forall other :: View(other) ==
                var d := old(View(other));
                if other == id
                then d.(handle := Some(Handles.Delivered(d.handle.value, op.version)), sent := d.sent + [op])
                else d
    {
      hide StoredFor, Recorded, Handles.Delivered;
      registry.devices[id].MarkDelivered(op.version);
      sent := sent[id := Get(sent, id) + [op]];
    }

    /** Pushes an op to a device; an offline device gets it in its cache. */
    method Deliver(id: string, op: DesiredOp) returns (ok: bool)
      requires Valid()
      modifies this`sent, registry.Parts(id)
      ensures Valid() && store.ledger == old(store.ledger)
      ensures ok == M.Deliver(old(View(id)), op).1
      ensures forall other :: View(other) == if other == id then M.Deliver(old(View(id)), op).0 else old(View(other))
    {
      hide StoredFor, Recorded, D.Registry.Valid, Cached, Handles.Delivered;
      if id !in registry.devices {
        return false;
      }
      if !registry.devices[id].online {
        CacheFor(id, op);
        return false;
      }
      HandTo(id, op);
      return true;
    }

    /** Pushes ops in order, up to the first failure. */
    method DeliverAll(id: string, ops: seq<DesiredOp>)
      requires Valid()
      modifies this`sent, registry.Parts(id)
      ensures Valid() && store.ledger == old(store.ledger)
      ensures forall other :: View(other) == if other == id then M.DeliverAll(old(View(id)), ops) else old(View(other))
    {
      var i := 0;
      while i < |ops|
        invariant 0 <= i <= |ops| && Valid() && store.ledger == old(store.ledger)
        invariant M.DeliverAll(View(id), ops[i..]) == M.DeliverAll(old(View(id)), ops)
        invariant forall other :: other != id ==> View(other) == old(View(other))
      {
        assert ops[i..][1..] == ops[i + 1..] && ops[i..][0] == ops[i];
        var ok := Deliver(id, ops[i]);
        if !ok {
          return;
        }
        i := i + 1;
      }
    }

    /** Publishes the reconnect of a device with the current snapshot. */
    method PublishReconnect(id: string, now: int)
      requires Valid()
      modifies store`history, store`ledger
      ensures Valid() && store.Grew()
      ensures forall other :: View(other) == if other == id
                then old(View(id)).(shadow := Published(old(View(id)).shadow, id, now))
                else old(View(other))
    {
      hide StoredFor, Recorded, D.Registry.Valid;
      store.PublishReconnect(id, now);
      store.OthersStay(id);
    }

    /** Delivers a replay and publishes the reconnect. */
    method Replay(id: string, ops: seq<DesiredOp>, now: int)
      requires Valid()
      modifies this`sent, registry.Parts(id), store`history, store`ledger
      ensures Valid() && store.Grew()
      ensures forall other :: View(other) == if other == id then M.Replayed(old(View(id)), id, ops, now) else old(View(other))
    {
      DeliverAll(id, ops);
      PublishReconnect(id, now);
    }

    method ReplayNewer(id: string, now: int) returns (ops: seq<DesiredOp>)
      requires Valid() && id in registry.devices
      modifies this`sent, registry.Parts(id), store`history, store`ledger
      ensures Valid() && store.Grew()
      ensures ops == M.ResumeOps(old(View(id)), id)
      ensures forall other :: View(other) == if other == id then M.Replayed(old(View(id)), id, ops, now) else old(View(other))
    {
      hide M.Replayed, DesiredSince, Window, StoredFor, Recorded, D.Registry.Valid;
      var start := registry.devices[id].lastDelivered;
      ops := store.ListDesiredSince(id, start);
      Replay(id, ops, now);
    }

    /** Replays the writes newer than the delivery watermark. */
    method Resume(id: string, now: int) returns (ops: seq<DesiredOp>)
      requires Valid()
      modifies this`sent, registry.Parts(id), store`history, store`ledger
      ensures Valid() && store.Grew()
      ensures ops == M.ResumeOps(old(View(id)), id)
      ensures forall other :: View(other) == if other == id then M.Apply(old(View(id)), id, M.Resume(now)) else old(View(other))
    {
      hide M.Apply, M.Replayed, DesiredSince, Window, StoredFor, Recorded, D.Registry.Valid;
      ResumeIsReplayed(View(id), id, now);
      if id !in registry.devices {
        return [];
      }
      ops := ReplayNewer(id, now);
    }

    /** Empties the cache of a registered device. */
    method Drain(id: string) returns (cached: seq<DesiredOp>)
      requires Valid() && id in registry.devices
      modifies registry.Parts(id)
      ensures Valid() && store.ledger == old(store.ledger)
      ensures cached == old(View(id)).handle.value.cache
      ensures forall other :: View(other) == if other == id then M.Drained(old(View(id))) else old(View(other))
    {
      cached := registry.devices[id].DrainCache();
    }

    /** Joins cached ops with the newer writes in the history, each version once. */
    method PlanReplay(id: string, cached: seq<DesiredOp>) returns (ops: seq<DesiredOp>)
      requires Valid() && id in registry.devices
      ensures ops == Plan(cached + M.OnlineOps(View(id), id))
    {
      var online := store.ListDesiredSince(id, registry.devices[id].lastDelivered);
      var plan := new ReplayPlan(cached, online);
      ops := plan.ops;
    }

    /** Empties the cache into a plan. */
    method TakePlan(id: string) returns (ops: seq<DesiredOp>)
      requires Valid() && id in registry.devices
      modifies registry.Parts(id)
      ensures Valid() && store.ledger == old(store.ledger)
      ensures ops == M.ReconcileOps(old(View(id)), id)
      ensures forall other :: View(other) == if other == id then M.Drained(old(View(id))) else old(View(other))
    {
      hide M.Drained, M.ReconcileOps, M.OnlineOps, Plan, StoredFor, Recorded, D.Registry.Valid;
      DrainKeepsOnlineOps(View(id), id);
      var cached := Drain(id);
      ops := PlanReplay(id, cached);
    }

    method ReplayAll(id: string, now: int) returns (ops: seq<DesiredOp>)
      requires Valid() && id in registry.devices
      modifies this`sent, registry.Parts(id), store`history, store`ledger
      ensures Valid() && store.Grew()
      ensures ops == M.ReconcileOps(old(View(id)), id)
      ensures forall other :: View(other) ==
                if other == id then M.Replayed(M.Drained(old(View(id))), id, ops, now) else old(View(other))
    {
      hide M.Replayed, M.Drained, M.ReconcileOps, StoredFor, Recorded, D.Registry.Valid;
      ops := TakePlan(id);
      Replay(id, ops, now);
    }

    /** Drains the offline cache and replays it with the newer writes, each version once. */
    method Reconcile(id: string, now: int) returns (ops: seq<DesiredOp>)
      requires Valid()
      modifies this`sent, registry.Parts(id), store`history, store`ledger
      ensures Valid() && store.Grew()
      ensures ops == M.ReconcileOps(old(View(id)), id)
      ensures forall other :: View(other) == if other == id then M.Apply(old(View(id)), id, M.Reconcile(now)) else old(View(other))
    {
      hide M.Apply, M.Replayed, StoredFor, Recorded, D.Registry.Valid;
      ReconcileIsReplayed(View(id), id, now);
      if id !in registry.devices {
        return [];
      }
      ops := ReplayAll(id, now);
    }

    /** Takes the next version of a device. */
    method TakeVersion(id: string) returns (version: int)
      requires Valid()
      modifies versions
      ensures Valid() && version == old(View(id)).counter + 1
      ensures forall other :: View(other) ==
                if other == id then old(View(id)).(counter := version) else old(View(other))
    {
      hide StoredFor, Recorded, D.Registry.Valid;
      version := versions.Next(id);
    }

    /** Gives a write the next version of its device. */
    method Number(id: string, props: Props, source: string) returns (op: DesiredOp)
      requires Valid()
      modifies versions
      ensures Valid()
      ensures op == DesiredOp(id, props, old(View(id)).counter + 1, source)
      ensures forall other :: View(other) ==
                if other == id then old(View(id)).(counter := op.version) else old(View(other))
    {
      hide StoredFor, Recorded, D.Registry.Valid;
      var version := TakeVersion(id);
      var copy := CloneMap(props);
      op := DesiredOp(id, copy.entries, version, source);
    }

    /** Commits a numbered report to the store; nothing for a tombstoned device. */
    method AcceptReport(id: string, op: ReportOp, now: int) returns (out: Document?)
      requires Valid() && op.deviceID == id
      modifies store`documents, store`history, store`ledger
      ensures Valid() && store.Grew()
      ensures View(id) == old(View(id)).(shadow := CommitReport(old(View(id)).shadow, store.policy, op, now))
      ensures forall other :: other != id ==> View(other) == old(View(other))
      ensures out == null <==> View(id).shadow.tombstone.Some?
      ensures out != null ==> fresh(out.Parts()) && View(id).shadow.doc == Some(out.Value())
    {
      hide CommitReport, StoredFor, Recorded, D.Registry.Valid;
      out := store.ApplyReport(op, now);
      store.OthersStay(id);
    }

    /** Commits one issued op to the store. */
    method Commit(id: string, op: DesiredOp, now: int)
      requires Valid() && op.deviceID == id && op.version == View(id).counter
      modifies this`issued, store`documents, store`history, store`ledger
      ensures Valid() && store.Grew()
      ensures View(id) == M.Issue(old(View(id)), op, now)
      ensures forall other :: other != id ==> View(other) == old(View(other))
    {
      hide CommitDesired, StoredFor, Recorded, Store.Intact, D.Registry.Valid;
      var _ := store.ApplyDesired(op, now);
      issued := issued[id := Get(issued, id) + [op]];
      store.OthersStay(id);
    }

    /** Numbers a write and commits it. */
    method Issue(id: string, props: Props, source: string, now: int) returns (op: DesiredOp)
      requires Valid()
      modifies this`issued, versions, store`documents, store`history, store`ledger
      ensures Valid() && store.Grew()
      ensures op == DesiredOp(id, props, old(View(id)).counter + 1, source)
      ensures forall other :: View(other) == if other == id then M.Issue(old(View(id)), op, now) else old(View(other))
    {
      op := Number(id, props, source);
      Commit(id, op, now);
    }

    /** One desired write: takes the next version, commits to the store and
        delivers, whether or not the store accepted it. */
    method Write(id: string, props: Props, source: string, now: int) returns (ok: bool)
      requires Valid()
      modifies this`issued, this`sent, versions, store`documents, store`history, store`ledger, registry.Parts(id)
      ensures Valid() && store.Grew()
      ensures ok == M.Write(old(View(id)), id, props, source, now).1
      ensures forall other :: View(other) ==
                if other == id then M.Write(old(View(id)), id, props, source, now).0 else old(View(other))
    {
      hide M.Issue, M.Deliver, Store.Valid, View, D.Registry.Valid;
      var op := Issue(id, props, source, now);
      ok := Deliver(id, op);
    }
  }

  lemma WriteAllOfOne(d: M.Device, id: string, props: Props, source: string, now: int)
    ensures M.WriteAll(d, id, [props], source, now) == M.Write(d, id, props, source, now).0
  {
    assert [props][..0] == [];
  }

  /** Single desired writes. Properties arrive normalised. */
  class DesiredService {
    const sync: SyncService

    constructor (sync: SyncService)
      ensures this.sync == sync
    {
      this.sync := sync;
    }

    /** Writes nothing for empty props; otherwise commits and delivers one op. */
    method ApplyDesired(id: string, props: Props, source: string, now: int) returns (doc: Document?)
      requires sync.Valid()
      modifies sync`issued, sync`sent, sync.versions
      modifies sync.store`documents, sync.store`history, sync.store`ledger, sync.registry.Parts(id)
      ensures sync.Valid()
      ensures forall other :: sync.View(other) ==
                if other == id && props != map[] then M.Apply(old(sync.View(id)), id, M.Writes([props], source, false, now))
                else old(sync.View(other))
      ensures doc == null <==> sync.View(id).shadow.doc.None?
      ensures doc != null ==> fresh(doc.Parts()) && doc.Value() == sync.View(id).shadow.doc.value
    {
      hide M.Write, M.WriteAll, StoredFor, Recorded, D.Registry.Valid;
      if |props| > 0 {
        WriteAllOfOne(sync.View(id), id, props, source, now);
        var _ := sync.Write(id, props, source, now);
      }
      doc := sync.store.Snapshot(id);
    }
  }

  /** Device reports. A report for a tombstoned device is an error. */
  class ReportService {
    const sync: SyncService

    constructor (sync: SyncService)
      ensures this.sync == sync
    {
      this.sync := sync;
    }

    method HandleReport(id: string, props: Props, baseVersion: int, clientID: string, now: int)
      returns (doc: Option<Document>)
      requires sync.Valid()
      modifies sync.versions, sync.store`documents, sync.store`history, sync.store`ledger
      ensures sync.Valid()
      ensures forall other :: sync.View(other) ==
                if other == id
                then M.Apply(old(sync.View(id)), id, M.Report(props, baseVersion, clientID, old(sync.store.policy), now))
                else old(sync.View(other))
      ensures doc.None? <==> sync.View(id).shadow.tombstone.Some?
      ensures doc.Some? ==> fresh(doc.value.Parts()) && sync.View(id).shadow.doc == Some(doc.value.Value())
    {
      hide M.Apply, CommitReport, StoredFor, Recorded, D.Registry.Valid;
      ReportIsTaken(sync.View(id), id, props, baseVersion, clientID, sync.store.policy, now);
      var version := sync.TakeVersion(id);
      var out := sync.AcceptReport(id, ReportOp(id, props, baseVersion, version, clientID), now);
      doc := if out == null then None else Some(out);
    }
  }

  // ---- Rollback ----

  /** Each of these devices is rolled back to its pre-image at its own desired version. */
  function RolledBack(s: Shadow, before: Props, now: int): Shadow {
    Restored(s, before, M.DesiredVersionOf(s), now)
  }

  /** Rolling back a device returns its desired section to the pre-image, keeps
      its reported section and all versions, and doing it twice changes nothing more. */
  lemma RollbackRestores(s: Shadow, before: Props, now: int)
    ensures var after := RolledBack(s, before, now);
            && after.tombstone == s.tombstone && after.log == s.log
            && (after.doc.Some? <==> s.doc.Some?)
            && (s.doc.Some? ==>
                  && after.doc.value.desired == before
                  && after.doc.value.reported == s.doc.value.reported
                  && after.doc.value.reportedVersion == s.doc.value.reportedVersion
                  && after.doc.value.desiredVersion == s.doc.value.desiredVersion
                  && (WatermarkOk(s.doc.value) ==> after.doc.value.version == s.doc.value.version))
            && RolledBack(after, before, now) == after
  {
  }

  /** The desired section of each device before a batch, and the devices it wrote to. */
  class RollbackPlan {
    var applied: seq<string>
    const before: map<string, Props>

    function BeforeOf(id: string): Props {
      if id in before then before[id] else map[]
    }

    constructor (store: Store, items: seq<BatchItem>)
      ensures applied == []
      ensures before.Keys == set item | item in items :: item.deviceID
      ensures forall id :: id in before ==> before[id] == M.DesiredOf(store.View(id))
    {
      var kept: map<string, Props> := map[];
      for i := 0 to |items|
        invariant kept.Keys == set item | item in items[..i] :: item.deviceID
        invariant forall id :: id in kept ==> kept[id] == M.DesiredOf(store.View(id))
      {
        assert items[..i + 1] == items[..i] + [items[i]];
        var id := items[i].deviceID;
        if id in kept {
          continue;
        }
        var doc := store.Snapshot(id);
        if doc == null {
          kept := kept[id := map[]];
          continue;
        }
        var copy := CloneMap(doc.desired.entries);
        kept := kept[id := copy.entries];
      }
      assert items[..|items|] == items;
      applied, before := [], kept;
    }

    method Record(id: string)
      modifies this`applied
      ensures applied == old(applied) + [id]
    {
      applied := applied + [id];
    }

    /** Rolls one device back to its pre-image, at the version it has now. */
    method RestoreOne(store: Store, id: string, now: int)
      requires store.Valid()
      modifies store`ledger, if id in store.documents then {store.documents[id]} else {}
      ensures store.Valid() && store.Grew() && store.ledger == old(store.ledger).(live := store.ledger.live)
      ensures store.ledger.live.docs == old(store.ledger.live.docs)
      ensures forall other :: store.View(other) ==
                if other == id then RolledBack(old(store.View(id)), BeforeOf(id), now) else old(store.View(other))
    {
      var doc := store.Snapshot(id);
      var version := if doc == null then 0 else doc.desiredVersion;
      store.Restore(id, BeforeOf(id), version, now);
    }

    /** Rolls every recorded device back, however often it was recorded and
        whatever was written to it since. */
    method Restore(store: Store, now: int)
      requires store.Valid()
      modifies store`ledger, store.ledger.live.docs
      ensures store.Valid() && store.Grew() && store.ledger == old(store.ledger).(live := store.ledger.live)
      ensures store.ledger.live.docs == old(store.ledger.live.docs)
      ensures forall id :: store.View(id) ==
                if id in applied then RolledBack(old(store.View(id)), BeforeOf(id), now) else old(store.View(id))
    {
      hide RolledBack, Recorded, StoredFor;
      for i := 0 to |applied|
        invariant store.Valid() && store.Grew() && store.ledger == old(store.ledger).(live := store.ledger.live)
        invariant store.ledger.live.docs == old(store.ledger.live.docs)
        invariant forall id :: store.View(id) ==
                    if id in applied[..i] then RolledBack(old(store.View(id)), BeforeOf(id), now)
                    else old(store.View(id))
      {
        var id := applied[i];
        store.StoredIsOwned(id);
        RollbackRestores(old(store.View(id)), BeforeOf(id), now);
        RestoreOne(store, id, now);
        assert applied[..i + 1] == applied[..i] + [id];
      }
      assert applied[..|applied|] == applied;
    }
  }
}
