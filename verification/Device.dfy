/** Registered devices: connectivity, delivery watermark and offline cache. */
module Devices {
  import opened Model
  import opened Handles

  /** Buffers the writes that could not be pushed. The watermark survives a drain. */
  class OfflineCache {
    var ops: seq<DesiredOp>
    var watermark: int

    constructor ()
      ensures ops == [] && watermark == 0
    {
      ops, watermark := [], 0;
    }

    method Add(op: DesiredOp)
      modifies this
      ensures ops == old(ops) + [op]
      ensures watermark == MaxVersion(op.version, old(watermark))
    {
      ops := ops + [op];
      if op.version > watermark {
        watermark := op.version;
      }
    }

    method Drain() returns (out: seq<DesiredOp>)
      modifies this`ops
      ensures out == old(ops) && ops == []
    {
      out := ops;
      ops := [];
    }
  }

  class Device {
    const id: string
    const cache: OfflineCache
    var online: bool
    var lastDelivered: int

    ghost function Value(): Handle
      reads this, cache
    {
      Handle(online, lastDelivered, cache.ops, cache.watermark)
    }

    constructor (id: string)
      ensures this.id == id && fresh(cache) && Value() == REGISTERED
      ensures online && lastDelivered == 0 && cache.ops == [] && cache.watermark == 0
    {
      this.id := id;
      online, lastDelivered := true, 0;
      cache := new OfflineCache();
    }

    method MarkDelivered(version: int)
      modifies this`lastDelivered
      ensures Value() == Handles.Delivered(old(Value()), version)
    {
      if version > lastDelivered {
        lastDelivered := version;
      }
    }

    method CacheDesired(op: DesiredOp)
      modifies cache
      ensures Value() == Cached(old(Value()), op)
    {
      cache.Add(op);
    }

    method DrainCache() returns (out: seq<DesiredOp>)
      modifies cache`ops
      ensures out == old(Value()).cache
      ensures Value() == old(Value()).(cache := [])
    {
      out := cache.Drain();
    }
  }

  class Registry {
    var devices: map<string, Device>

    /** Every object that holds the state of a device. */
    ghost var owned: set<object>

    /** Every device is filed under its id, and no two share a cache. */
    ghost predicate Valid()
      reads `devices, `owned
    {
      && (forall id :: id in devices ==> devices[id].id == id)
      && (forall id :: Parts(id) <= owned)
      && (forall a, b :: a in devices && b in devices && a != b ==> devices[a].cache != devices[b].cache)
      && (forall o :: o in owned ==> o is Device || o is OfflineCache)
    }

    /** The objects that hold the state of one device. */
    ghost function Parts(id: string): set<object>
      reads `devices
    {
      if id in devices then {devices[id], devices[id].cache} else {}
    }

    ghost function View(id: string): Option<Handle>
      reads `devices, Parts(id)
    {
      if id in devices then Some(devices[id].Value()) else None
    }

    constructor ()
      ensures Valid() && devices == map[] && owned == {}
    {
      devices, owned := map[], {};
    }

    method Register(id: string) returns (dev: Device)
      requires Valid()
      modifies this
      ensures Valid() && id in devices && dev == devices[id]
      ensures devices == old(devices)[id := dev]
      ensures id !in old(devices) ==>
                && fresh(dev) && fresh(dev.cache) && dev.Value() == REGISTERED
                && dev.online && dev.lastDelivered == 0 && dev.cache.ops == []
      ensures id in old(devices) ==> devices == old(devices)
      ensures fresh(owned - old(owned))
    {
      if id in devices {
        dev := devices[id];
        assert devices[id := dev] == devices;
        return;
      }
      dev := new Device(id);
      owned := owned + {dev, dev.cache};
      devices := devices[id := dev];
      assert forall other :: other != id ==> Parts(other) == old(Parts(other));
    }

    method SetOnline(id: string, online: bool)
      requires Valid()
      modifies if id in devices then {devices[id]} else {}
      ensures forall other :: View(other) ==
                if other == id && id in devices then Some(old(View(id)).value.(online := online)) else old(View(other))
    {
      if id in devices {
        devices[id].online := online;
      }
    }
  }
}
