/** The notification hub as a concurrent protocol, for one device. A notification
    marks the device dirty and starts a flusher; any number of flushers interleave
    their atomic steps: take the mark, read the store, offer to one channel. */
module Coalescing {

  type Channel = string

  datatype Flusher =
    | Ready
    | Reading(channels: set<Channel>)
    | Sending(snapshot: nat, remaining: set<Channel>)
    | Exited

  /** Snapshots are numbered by commits: snapshot `i` is the shadow after commit
      `i`. For each subscriber, `need` is the newest notified commit since it
      subscribed, and `offered` the newest snapshot it was offered. */
  datatype Hub = Hub(
    commits: nat,
    dirty: bool,
    flushers: seq<Flusher>,
    need: map<Channel, nat>,
    offered: map<Channel, nat>,
    notifications: nat,
    iterations: nat)

  const IDLE := Hub(0, false, [], map[], map[], 0, 0)

  datatype Action =
    | Commit
    | Notify(commit: nat)
    | Subscribe(channel: Channel)
    | Take(f: nat)
    | Read(f: nat)
    | Offer(f: nat, channel: Channel)
    | Again(f: nat)

  predicate Enabled(h: Hub, action: Action) {
    match action
    case Commit => true
    case Notify(commit) => 1 <= commit <= h.commits
    case Subscribe(channel) => channel !in h.need
    case Take(f) => f < |h.flushers| && h.flushers[f].Ready?
    case Read(f) => f < |h.flushers| && h.flushers[f].Reading?
    case Offer(f, channel) =>
      f < |h.flushers| && h.flushers[f].Sending? && channel in h.flushers[f].remaining && channel in h.offered
    case Again(f) => f < |h.flushers| && h.flushers[f].Sending? && h.flushers[f].remaining == {}
  }

  function Max(a: nat, b: nat): nat {
    if a > b then a else b
  }

  function Next(h: Hub, action: Action): Hub {
    if !Enabled(h, action) then h
    else
      match action
      case Commit => h.(commits := h.commits + 1)
      case Notify(commit) =>
        h.(dirty := true,
           flushers := h.flushers + [Ready],
           need := map channel | channel in h.need :: Max(h.need[channel], commit),
           notifications := h.notifications + 1)
      case Subscribe(channel) => h.(need := h.need[channel := 0], offered := h.offered[channel := 0])
      case Take(f) =>
        h.(dirty := false,
           flushers := h.flushers[f := if h.dirty then Reading(h.need.Keys) else Exited],
           iterations := h.iterations + 1)
      case Read(f) => h.(flushers := h.flushers[f := Sending(h.commits, h.flushers[f].channels)])
      case Offer(f, channel) =>
        var flusher := h.flushers[f];
        h.(flushers := h.flushers[f := Sending(flusher.snapshot, flusher.remaining - {channel})],
           offered := h.offered[channel := Max(h.offered[channel], flusher.snapshot)])
      case Again(f) => h.(flushers := h.flushers[f := Ready])
  }

  function Exec(actions: seq<Action>): Hub {
    if actions == [] then IDLE else Next(Exec(actions[..|actions| - 1]), actions[|actions| - 1])
  }

  // ---- No notification is lost ----

  /** This flusher will offer the channel a snapshot at least as new as `need`. */
  predicate WillOffer(flusher: Flusher, channel: Channel, need: nat) {
    match flusher
    case Reading(channels) => channel in channels
    case Sending(snapshot, remaining) => channel in remaining && snapshot >= need
    case _ => false
  }

  ghost predicate Served(h: Hub, channel: Channel)
    requires channel in h.need && channel in h.offered
  {
    || h.offered[channel] >= h.need[channel]
    || h.dirty
    || exists f :: 0 <= f < |h.flushers| && WillOffer(h.flushers[f], channel, h.need[channel])
  }

  ghost predicate NoneLost(h: Hub) {
    && h.need.Keys == h.offered.Keys
    && (forall channel :: channel in h.need ==> h.need[channel] <= h.commits && Served(h, channel))
    && (forall f :: 0 <= f < |h.flushers| ==>
          match h.flushers[f]
          case Reading(channels) => channels <= h.need.Keys
          case Sending(_, remaining) => remaining <= h.need.Keys
          case _ => true)
    && (h.dirty ==> exists f :: 0 <= f < |h.flushers| && !h.flushers[f].Exited?)
  }

  lemma ServedStays(h: Hub, action: Action, channel: Channel)
    requires NoneLost(h) && Enabled(h, action) && channel in h.need
    ensures var after := Next(h, action);
            channel in after.need && channel in after.offered && Served(after, channel)
  {
    var after := Next(h, action);
    if h.offered[channel] < h.need[channel] && !h.dirty && !action.Notify? {
      var f :| 0 <= f < |h.flushers| && WillOffer(h.flushers[f], channel, h.need[channel]);
      if after.offered[channel] < after.need[channel] {
        assert WillOffer(after.flushers[f], channel, after.need[channel]);
      }
    }
    if h.dirty && action.Take? {
      assert WillOffer(after.flushers[action.f], channel, after.need[channel]);
    }
  }

  lemma ActionLosesNone(h: Hub, action: Action)
    requires NoneLost(h)
    ensures NoneLost(Next(h, action))
  {
    if Enabled(h, action) {
      var after := Next(h, action);
      forall channel | channel in after.need
        ensures channel in after.offered && after.need[channel] <= after.commits && Served(after, channel)
      {
        if channel in h.need {
          ServedStays(h, action, channel);
        }
      }
      if after.dirty {
        SomeoneRuns(h, action);
      }
    }
  }

  /** A dirty mark always has a flusher that will come to take it. */
  lemma SomeoneRuns(h: Hub, action: Action)
    requires NoneLost(h) && Enabled(h, action) && Next(h, action).dirty
    ensures var after := Next(h, action);
            exists f :: 0 <= f < |after.flushers| && !after.flushers[f].Exited?
  {
    var after := Next(h, action);
    if action.Notify? {
      assert !after.flushers[|h.flushers|].Exited?;
    } else {
      var f :| 0 <= f < |h.flushers| && !h.flushers[f].Exited?;
      assert !after.flushers[f].Exited?;
    }
  }

  lemma {:induction false} RunLosesNone(actions: seq<Action>)
    ensures NoneLost(Exec(actions))
  {
    if actions != [] {
      RunLosesNone(actions[..|actions| - 1]);
      ActionLosesNone(Exec(actions[..|actions| - 1]), actions[|actions| - 1]);
    }
  }

  predicate HoldsNothing(flusher: Flusher) {
    match flusher
    case Reading(channels) => channels == {}
    case Sending(_, remaining) => remaining == {}
    case _ => true
  }

  /** In every interleaving, when the device is not dirty and no flusher has
      anything left to offer, every subscriber has been offered a snapshot at
      least as new as every commit notified since it subscribed. */
  lemma NoLostNotification(actions: seq<Action>, channel: Channel)
    requires var h := Exec(actions);
             && channel in h.need && !h.dirty
             && forall f :: 0 <= f < |h.flushers| ==> HoldsNothing(h.flushers[f])
    ensures var h := Exec(actions);
            channel in h.offered && h.need[channel] <= h.offered[channel]
  {
    RunLosesNone(actions);
  }

  /** In particular once every flusher has exited: then the device cannot be dirty. */
  lemma AllExitedMeansAllOffered(actions: seq<Action>)
    requires forall f :: 0 <= f < |Exec(actions).flushers| ==> Exec(actions).flushers[f].Exited?
    ensures var h := Exec(actions);
            && !h.dirty
            && forall channel :: channel in h.need ==> channel in h.offered && h.need[channel] <= h.offered[channel]
  {
    RunLosesNone(actions);
    forall channel | channel in Exec(actions).need
      ensures channel in Exec(actions).offered && Exec(actions).need[channel] <= Exec(actions).offered[channel]
    {
      NoLostNotification(actions, channel);
    }
  }

  /** What a subscriber needs: the newest commit notified since it subscribed. */
  function Needs(actions: seq<Action>, channel: Channel): nat {
    if actions == [] then 0
    else
      var before, last := actions[..|actions| - 1], actions[|actions| - 1];
      if last.Notify? && Enabled(Exec(before), last) && channel in Exec(before).need then
        Max(Needs(before, channel), last.commit)
      else Needs(before, channel)
  }

  lemma {:induction false} NeedIsNewestNotified(actions: seq<Action>, channel: Channel)
    ensures Needs(actions, channel) == if channel in Exec(actions).need then Exec(actions).need[channel] else 0
  {
    if actions != [] {
      NeedIsNewestNotified(actions[..|actions| - 1], channel);
    }
  }

  // ---- Flushers stop ----

  function CountExited(flushers: seq<Flusher>): nat {
    if flushers == [] then 0
    else CountExited(flushers[..|flushers| - 1]) + (if flushers[|flushers| - 1].Exited? then 1 else 0)
  }

  /** The steps a flusher still takes before it returns to the mark. */
  function Work(flushers: seq<Flusher>): nat {
    if flushers == [] then 0
    else
      Work(flushers[..|flushers| - 1]) +
      match flushers[|flushers| - 1]
      case Reading(channels) => |channels| + 2
      case Sending(_, remaining) => |remaining| + 1
      case _ => 0
  }

  lemma {:induction false} CountAfterUpdate(flushers: seq<Flusher>, f: nat, flusher: Flusher)
    requires f < |flushers|
    ensures CountExited(flushers[f := flusher]) + (if flushers[f].Exited? then 1 else 0)
            == CountExited(flushers) + (if flusher.Exited? then 1 else 0)
    ensures Work(flushers[f := flusher]) + Work([flushers[f]]) == Work(flushers) + Work([flusher])
  {
    var last, updated := |flushers| - 1, flushers[f := flusher];
    assert [flusher][..0] == [] && [flushers[f]][..0] == [];
    if f < last {
      assert updated[..last] == flushers[..last][f := flusher];
      CountAfterUpdate(flushers[..last], f, flusher);
    } else {
      assert updated[..last] == flushers[..last];
    }
  }

  /** Each iteration used up a notification's mark, or ended a flusher. */
  ghost predicate Budget(h: Hub) {
    && |h.flushers| == h.notifications
    && CountExited(h.flushers) <= h.notifications
    && h.iterations + (if h.dirty then 1 else 0) <= h.notifications + CountExited(h.flushers)
  }

  lemma ActionKeepsBudget(h: Hub, action: Action)
    requires Budget(h)
    ensures Budget(Next(h, action))
  {
    if Enabled(h, action) {
      var after := Next(h, action);
      CountIsBounded(after.flushers);
      match action
      case Notify(_) => assert after.flushers[..|h.flushers|] == h.flushers;
      case Take(f) => CountAfterUpdate(h.flushers, f, after.flushers[f]);
      case Read(f) => CountAfterUpdate(h.flushers, f, after.flushers[f]);
      case Offer(f, _) => CountAfterUpdate(h.flushers, f, after.flushers[f]);
      case Again(f) => CountAfterUpdate(h.flushers, f, after.flushers[f]);
      case _ =>
    }
  }

  lemma {:induction false} CountIsBounded(flushers: seq<Flusher>)
    ensures CountExited(flushers) <= |flushers|
  {
    if flushers != [] {
      CountIsBounded(flushers[..|flushers| - 1]);
    }
  }

  lemma {:induction false} RunKeepsBudget(actions: seq<Action>)
    ensures Budget(Exec(actions))
  {
    if actions != [] {
      RunKeepsBudget(actions[..|actions| - 1]);
      ActionKeepsBudget(Exec(actions[..|actions| - 1]), actions[|actions| - 1]);
    }
  }

  /** N notifications cause at most 2N flusher iterations. */
  lemma IterationsAreBounded(actions: seq<Action>)
    ensures Exec(actions).iterations <= 2 * Exec(actions).notifications
  {
    RunKeepsBudget(actions);
  }

  predicate IsFlusherAction(action: Action) {
    action.Take? || action.Read? || action.Offer? || action.Again?
  }

  /** So flushers stop: each of their steps either spends an iteration of the
      bounded budget, or shortens the work left without spending one. */
  lemma FlushersStop(actions: seq<Action>, action: Action)
    requires IsFlusherAction(action) && Enabled(Exec(actions), action)
    ensures var h, after := Exec(actions), Next(Exec(actions), action);
            && after.notifications == h.notifications
            && h.iterations <= after.iterations <= 2 * h.notifications
            && (h.iterations < after.iterations || Work(after.flushers) < Work(h.flushers))
  {
    var h, after := Exec(actions), Next(Exec(actions), action);
    RunKeepsBudget(actions);
    ActionKeepsBudget(h, action);
    CountIsBounded(after.flushers);
    CountAfterUpdate(h.flushers, action.f, after.flushers[action.f]);
    assert [h.flushers[action.f]][..0] == [] && [after.flushers[action.f]][..0] == [];
  }

  /** And they never block: a flusher that has not exited can always take a step. */
  lemma FlushersNeverBlock(actions: seq<Action>, f: nat)
    requires f < |Exec(actions).flushers| && !Exec(actions).flushers[f].Exited?
    ensures exists action :: IsFlusherAction(action) && action.f == f && Enabled(Exec(actions), action)
  {
    RunLosesNone(actions);
    var h := Exec(actions);
    match h.flushers[f]
    case Ready => assert Enabled(h, Take(f));
    case Reading(_) => assert Enabled(h, Read(f));
    case Sending(_, remaining) =>
      if remaining == {} {
        assert Enabled(h, Again(f));
      } else {
        var channel :| channel in remaining;
        assert Enabled(h, Offer(f, channel));
      }
  }
}
