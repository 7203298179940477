/** The remaining calls of the server: each takes the devices by one step of the machine. */
module Servers {
  import opened Shadow
  import opened Stores
  import opened Services
  import G = Guarantees
  import M = Machine
  import D = Devices

  class Server {
    const sync: SyncService

    constructor (sync: SyncService)
      ensures this.sync == sync
    {
      this.sync := sync;
    }

    method RegisterDevice(id: string)
      requires sync.Valid()
      modifies sync.registry
      ensures sync.Valid() && fresh(sync.registry.owned - old(sync.registry.owned))
      ensures forall other :: sync.View(other) ==
                if other == id then M.Apply(old(sync.View(id)), id, M.Register) else old(sync.View(other))
    {
      hide StoredFor, Recorded;
      var _ := sync.registry.Register(id);
    }

    method SetConnected(id: string, online: bool)
      requires sync.Valid()
      modifies sync.registry.Parts(id)
      ensures sync.Valid()
      ensures forall other :: sync.View(other) ==
                if other == id then M.Apply(old(sync.View(id)), id, M.SetOnline(online)) else old(sync.View(other))
    {
      hide StoredFor, Recorded;
      sync.registry.SetOnline(id, online);
    }

    /** What the handlers answer about a shadow: its overall version, and whether it was deleted. */
    method Status(id: string) returns (version: int, tombstoned: bool)
      requires sync.Valid()
      ensures version == CurrentVersion(sync.View(id).shadow)
      ensures var doc := sync.View(id).shadow.doc; version == if doc.None? then 0 else doc.value.version
      ensures tombstoned <==> sync.View(id).shadow.tombstone.Some?
    {
      hide StoredFor, Recorded, D.Registry.Valid;
      version := sync.store.Version(id);
      tombstoned := sync.store.IsTombstoned(id);
    }

    /** A device that reconnects goes online and is resumed. */
    method Reconnect(id: string, now: int) returns (replayed: nat, version: int, tombstoned: bool)
      requires sync.Valid()
      modifies sync`sent, sync.registry.Parts(id), sync.store`history, sync.store`ledger
      ensures sync.Valid()
      ensures forall other :: sync.View(other) ==
                if other == id then G.Reconnected(old(sync.View(id)), id, now) else old(sync.View(other))
      ensures replayed == |M.ResumeOps(M.Apply(old(sync.View(id)), id, M.SetOnline(true)), id)|
      ensures version == CurrentVersion(sync.View(id).shadow)
      ensures var doc := sync.View(id).shadow.doc; version == if doc.None? then 0 else doc.value.version
      ensures tombstoned <==> sync.View(id).shadow.tombstone.Some?
    {
      hide M.Apply, M.ResumeOps, SyncService.Valid, CurrentVersion;
      SetConnected(id, true);
      var ops := sync.Resume(id, now);
      replayed := |ops|;
      version, tombstoned := Status(id);
    }

    method DeleteShadow(id: string, now: int)
      requires sync.Valid()
      modifies sync.store`documents, sync.store`tombstones, sync.store`history, sync.store`ledger
      ensures sync.Valid()
      ensures forall other :: sync.View(other) ==
                if other == id then M.Apply(old(sync.View(id)), id, M.Delete(now)) else old(sync.View(other))
    {
      hide StoredFor, Recorded, D.Registry.Valid;
      sync.store.Delete(id, now);
      sync.store.OthersStay(id);
    }

    method CollectTombstones(cutoff: int) returns (removed: nat)
      requires sync.Valid()
      modifies sync.store`tombstones
      ensures sync.Valid()
      ensures forall id :: sync.View(id) == M.Apply(old(sync.View(id)), id, M.Collect(cutoff))
      ensures removed == |set id | id in old(sync.store.tombstones) && old(sync.store.tombstones)[id] < cutoff|
    {
      hide StoredFor, Recorded, D.Registry.Valid;
      removed := sync.store.GCTombstones(cutoff);
    }
  }
}
