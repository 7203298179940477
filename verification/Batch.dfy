/** Groups of desired writes and the progress of their delivery. */
module Batches {
  import opened Model

  datatype BatchState = Pending | Partial | Done

  datatype BatchItem = BatchItem(deviceID: string, props: Props, priority: int)

  /** The value of one batch at one moment. */
  datatype BatchValue = BatchValue(
    id: string,
    items: seq<BatchItem>,
    state: BatchState,
    applied: seq<string>,
    failed: seq<string>,
    retryRemaining: int)

  function NewBatch(id: string, items: seq<BatchItem>): BatchValue {
    BatchValue(id, items, Pending, [], [], |items|)
  }

  function Applied(b: BatchValue, deviceID: string): BatchValue {
    b.(applied := b.applied + [deviceID],
       retryRemaining := if b.retryRemaining > 0 then b.retryRemaining - 1 else b.retryRemaining)
  }

  function Failed(b: BatchValue, deviceID: string): BatchValue {
    b.(failed := b.failed + [deviceID], state := Partial)
  }

  function Closed(b: BatchValue): BatchValue {
    b.(state := Done, retryRemaining := 0)
  }

  /** The items whose device is in `failed`, in their order. */
  function Outstanding(items: seq<BatchItem>, failed: seq<string>): (out: seq<BatchItem>)
    ensures forall item :: item in out <==> item in items && item.deviceID in failed
  {
    if items == [] then []
    else
      var rest, last := Outstanding(items[..|items| - 1], failed), items[|items| - 1];
      assert items == items[..|items| - 1] + [last];
      if last.deviceID in failed then rest + [last] else rest
  }

  class Batch {
    const id: string
    const items: seq<BatchItem>
    var state: BatchState
    var applied: seq<string>
    var failed: seq<string>
    var retryRemaining: int

    ghost function Value(): BatchValue
      reads this
    {
      BatchValue(id, items, state, applied, failed, retryRemaining)
    }

    constructor (id: string, items: seq<BatchItem>)
      ensures Value() == NewBatch(id, items)
      ensures this.id == id && this.items == items && state == Pending
      ensures applied == failed == [] && retryRemaining == |items|
    {
      this.id, this.items := id, items;
      state, applied, failed, retryRemaining := Pending, [], [], |items|;
    }

    method RecordApplied(deviceID: string)
      modifies this
      ensures Value() == Applied(old(Value()), deviceID)
      ensures applied == old(applied) + [deviceID] && failed == old(failed) && state == old(state)
      ensures retryRemaining == if old(retryRemaining) > 0 then old(retryRemaining) - 1 else old(retryRemaining)
    {
      applied := applied + [deviceID];
      if retryRemaining > 0 {
        retryRemaining := retryRemaining - 1;
      }
    }

    method MarkPartial(deviceID: string)
      modifies this
      ensures Value() == Failed(old(Value()), deviceID)
      ensures failed == old(failed) + [deviceID] && state == Partial
      ensures applied == old(applied) && retryRemaining == old(retryRemaining)
    {
      failed := failed + [deviceID];
      state := Partial;
    }

    method MarkDone()
      modifies this
      ensures Value() == Closed(old(Value()))
      ensures state == Done && retryRemaining == 0 && applied == old(applied) && failed == old(failed)
    {
      state := Done;
      retryRemaining := 0;
    }

    method ListOutstanding() returns (out: seq<BatchItem>)
      ensures out == Outstanding(items, failed)
    {
      var failedSet: set<string> := {};
      for i := 0 to |failed|
        invariant failedSet == set d | d in failed[..i]
      {
        assert failed[..i + 1] == failed[..i] + [failed[i]];
        failedSet := failedSet + {failed[i]};
      }
      assert failed[..|failed|] == failed;
      out := [];
      for i := 0 to |items|
        invariant out == Outstanding(items[..i], failed)
      {
        assert items[..i + 1][..i] == items[..i];
        if items[i].deviceID in failedSet {
          out := out + [items[i]];
        }
      }
      assert items[..|items|] == items;
    }
  }
}
