/** What the registry holds for one device. */
module Handles {
  import opened Model

  /** Connectivity, the delivery watermark, and the offline cache with its own watermark. */
  datatype Handle = Handle(online: bool, lastDelivered: int, cache: seq<DesiredOp>, cacheWatermark: int)

  const REGISTERED := Handle(true, 0, [], 0)

  /** Watermarks only move forward. */
  function Delivered(h: Handle, version: int): Handle {
    h.(lastDelivered := MaxVersion(version, h.lastDelivered))
  }

  function Cached(h: Handle, op: DesiredOp): Handle {
    h.(cache := h.cache + [op], cacheWatermark := MaxVersion(op.version, h.cacheWatermark))
  }
}
