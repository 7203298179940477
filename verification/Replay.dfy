/** The delivery plan that joins the offline cache with the online resume. */
module Replay {
  import opened Model

  predicate Increasing(ops: seq<DesiredOp>) {
    forall i, j :: 0 <= i < j < |ops| ==> ops[i].version < ops[j].version
  }

  function Versions(ops: seq<DesiredOp>): set<int> {
    if ops == [] then {} else Versions(ops[..|ops| - 1]) + {ops[|ops| - 1].version}
  }

  /** The highest version in `ops`, or 0. */
  function Highest(ops: seq<DesiredOp>): (v: int)
    ensures v == 0 || v in Versions(ops)
    ensures forall w :: w in Versions(ops) ==> w <= v
    ensures v >= 0
  {
    if ops == [] then 0
    else MaxVersion(Highest(ops[..|ops| - 1]), ops[|ops| - 1].version)
  }

  /** `ops` without the ops whose version came earlier. */
  function Plan(ops: seq<DesiredOp>): (plan: seq<DesiredOp>)
    ensures Versions(plan) == Versions(ops)
    ensures Highest(plan) == Highest(ops)
  {
    if ops == [] then []
    else
      var rest, op := Plan(ops[..|ops| - 1]), ops[|ops| - 1];
      if op.version in Versions(rest) then rest
      else assert (rest + [op])[..|rest|] == rest; rest + [op]
  }

  lemma {:induction false} VersionOfIndex(ops: seq<DesiredOp>, i: nat)
    requires i < |ops|
    ensures ops[i].version in Versions(ops)
  {
    if i < |ops| - 1 {
      VersionOfIndex(ops[..|ops| - 1], i);
    }
  }

  lemma {:induction false} IndexOfVersion(ops: seq<DesiredOp>, v: int) returns (i: nat)
    requires v in Versions(ops)
    ensures i < |ops| && ops[i].version == v
  {
    i := |ops| - 1;
    if ops[i].version != v {
      i := IndexOfVersion(ops[..i], v);
    }
  }

  function FirstIndex(ops: seq<DesiredOp>, version: int): (i: nat)
    requires version in Versions(ops)
    ensures i < |ops| && ops[i].version == version && version !in Versions(ops[..i])
  {
    var last := |ops| - 1;
    if version in Versions(ops[..last]) then
      var i := FirstIndex(ops[..last], version);
      assert ops[..last][..i] == ops[..i];
      i
    else last
  }

  /** The plan, the versions and the highest version of one op more. */
  lemma PlanSnoc(ops: seq<DesiredOp>, op: DesiredOp)
    ensures Plan(ops + [op]) == if op.version in Versions(ops) then Plan(ops) else Plan(ops) + [op]
    ensures Highest(ops + [op]) == MaxVersion(Highest(ops), op.version)
    ensures Versions(ops + [op]) == Versions(ops) + {op.version}
    ensures forall v :: v in Versions(ops) ==> FirstIndex(ops + [op], v) == FirstIndex(ops, v)
    ensures op.version !in Versions(ops) ==> FirstIndex(ops + [op], op.version) == |ops|
  {
    assert (ops + [op])[..|ops|] == ops;
  }

  lemma {:induction false} PlanIsFirst(ops: seq<DesiredOp>, k: nat)
    requires k < |Plan(ops)|
    ensures var v := Plan(ops)[k].version;
            v in Versions(ops) && Plan(ops)[k] == ops[FirstIndex(ops, v)]
  {
    hide Highest, FirstIndex, Versions;
    assert ops != [];
    var front, op := ops[..|ops| - 1], ops[|ops| - 1];
    assert ops == front + [op];
    PlanSnoc(front, op);
    if k < |Plan(front)| {
      PlanIsFirst(front, k);
    }
  }

  lemma {:induction false} PlanKeepsOrder(ops: seq<DesiredOp>, k: nat, l: nat)
    requires k < l < |Plan(ops)|
    ensures var v, w := Plan(ops)[k].version, Plan(ops)[l].version;
            v in Versions(ops) && w in Versions(ops) && FirstIndex(ops, v) < FirstIndex(ops, w)
  {
    hide Highest, FirstIndex, Versions;
    PlanIsFirst(ops, k);
    PlanIsFirst(ops, l);
    var front, op := ops[..|ops| - 1], ops[|ops| - 1];
    assert ops == front + [op];
    PlanSnoc(front, op);
    PlanIsFirst(front, k);
    if l < |Plan(front)| {
      PlanKeepsOrder(front, k, l);
      PlanIsFirst(front, l);
    }
  }

  /** The plan is the union in first-occurrence order: every op is the first of
      its version, and first occurrences keep their order. */
  lemma PlanKeepsFirstOccurrences(ops: seq<DesiredOp>)
    ensures forall k :: 0 <= k < |Plan(ops)| ==>
              && Plan(ops)[k].version in Versions(ops)
              && Plan(ops)[k] == ops[FirstIndex(ops, Plan(ops)[k].version)]
    ensures forall k, l :: 0 <= k < l < |Plan(ops)| ==>
              && Plan(ops)[k].version in Versions(ops) && Plan(ops)[l].version in Versions(ops)
              && FirstIndex(ops, Plan(ops)[k].version) < FirstIndex(ops, Plan(ops)[l].version)
  {
    hide Plan, Highest, FirstIndex, Versions;
    forall k | 0 <= k < |Plan(ops)|
      ensures Plan(ops)[k].version in Versions(ops) && Plan(ops)[k] == ops[FirstIndex(ops, Plan(ops)[k].version)]
    {
      PlanIsFirst(ops, k);
    }
    forall k, l | 0 <= k < l < |Plan(ops)|
      ensures FirstIndex(ops, Plan(ops)[k].version) < FirstIndex(ops, Plan(ops)[l].version)
    {
      PlanKeepsOrder(ops, k, l);
    }
  }

  /** A list in version order is its own plan. */
  lemma {:induction false} PlanOfIncreasing(ops: seq<DesiredOp>)
    requires Increasing(ops)
    ensures Plan(ops) == ops
  {
    hide Highest, FirstIndex, Versions, Plan;
    if ops == [] {
      PlanOfNothing();
    } else {
      var front, op := ops[..|ops| - 1], ops[|ops| - 1];
      assert ops == front + [op];
      PlanOfIncreasing(front);
      PlanSnoc(front, op);
      if op.version in Versions(front) {
        var i := IndexOfVersion(front, op.version);
      }
    }
  }

  lemma PlanOfNothing()
    ensures Plan([]) == []
  {
  }

  /** When every online op was cached too, the plan is exactly the cache. */
  lemma {:induction false} PlanOfCovered(cached: seq<DesiredOp>, online: seq<DesiredOp>)
    requires Increasing(cached)
    requires Versions(online) <= Versions(cached)
    ensures Plan(cached + online) == cached
  {
    hide Highest, FirstIndex, Plan, Increasing;
    if online == [] {
      assert cached + online == cached;
      PlanOfIncreasing(cached);
    } else {
      var front, op := online[..|online| - 1], online[|online| - 1];
      assert cached + online == (cached + front) + [op];
      PlanOfCovered(cached, front);
      PlanSnoc(cached + front, op);
      VersionsOfConcat(cached, front);
    }
  }

  lemma {:induction false} VersionsOfConcat(a: seq<DesiredOp>, b: seq<DesiredOp>)
    ensures Versions(a + b) == Versions(a) + Versions(b)
  {
    if b == [] {
      assert a + b == a;
    } else {
      assert (a + b)[..|a + b| - 1] == a + b[..|b| - 1];
      VersionsOfConcat(a, b[..|b| - 1]);
    }
  }

  /** The plan as it is built: a list, the versions seen, and the highest one. */
  class ReplayPlan {
    var ops: seq<DesiredOp>
    var seen: set<int>
    var max: int

    ghost predicate Holds(all: seq<DesiredOp>)
      reads this
    {
      ops == Plan(all) && seen == Versions(all) && max == Highest(all)
    }

    constructor (cached: seq<DesiredOp>, online: seq<DesiredOp>)
      ensures Holds(cached + online)
    {
      ops, seen, max := [], {}, 0;
      new;
      for i := 0 to |cached|
        invariant Holds(Joined([], cached, i))
      {
        Add(Joined([], cached, i), cached[i]);
      }
      assert Joined([], cached, |cached|) == cached == Joined(cached, online, 0);
      for i := 0 to |online|
        invariant Holds(Joined(cached, online, i))
      {
        Add(Joined(cached, online, i), online[i]);
      }
      assert Joined(cached, online, |online|) == cached + online;
    }

    /** `front` and the first `n` ops of `back`. */
    static ghost function Joined(front: seq<DesiredOp>, back: seq<DesiredOp>, n: nat): (ops: seq<DesiredOp>)
      requires n <= |back|
      ensures n < |back| ==> ops + [back[n]] == front + back[..n + 1]
    {
      assert n < |back| ==> back[..n] + [back[n]] == back[..n + 1];
      front + back[..n]
    }

    method Add(ghost before: seq<DesiredOp>, op: DesiredOp)
      requires Holds(before)
      modifies this
      ensures Holds(before + [op])
    {
      assert (before + [op])[..|before|] == before;
      if op.version in seen {
        return;
      }
      seen := seen + {op.version};
      ops := ops + [op];
      if op.version > max {
        max := op.version;
      }
    }
  }
}
