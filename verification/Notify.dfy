/** The notification hub in memory, one critical section or flush at a time. */
module Notify {
  import opened Model
  import opened Itoa
  import opened Stores
  import P = Coalescing

  /** A buffered channel of snapshots. An offer that finds it full is dropped. */
  class Channel {
    ghost const deviceID: string
    ghost const subID: string
    const capacity: nat
    var buffer: seq<Document>

    constructor (capacity: nat, ghost deviceID: string, ghost subID: string)
      ensures this.deviceID == deviceID && this.subID == subID
      ensures this.capacity == capacity && buffer == []
    {
      this.deviceID, this.subID := deviceID, subID;
      this.capacity := capacity;
      buffer := [];
    }

    method Offer(doc: Document)
      modifies this`buffer
      ensures buffer == Offered(old(buffer), doc)
      ensures |old(buffer)| < capacity ==> buffer == old(buffer) + [doc]
      ensures |old(buffer)| >= capacity ==> buffer == old(buffer)
    {
      if |buffer| < capacity {
        buffer := buffer + [doc];
      }
    }

    /** The buffer after an offer. */
    function Offered(before: seq<Document>, doc: Document): seq<Document> {
      if |before| < capacity then before + [doc] else before
    }
  }

  // ---- Subscriber ids ----

  ghost function SubID(n: nat): string {
    "sub-" + Decimal(n)
  }

  /** The ids given to the first `n` subscribers of a device. */
  ghost function FirstIDs(n: nat): set<string> {
    if n == 0 then {} else FirstIDs(n - 1) + {SubID(n)}
  }

  lemma SubIDIsInjective(m: nat, n: nat)
    requires SubID(m) == SubID(n)
    ensures m == n
  {
    assert SubID(m)[4..] == Decimal(m) && SubID(n)[4..] == Decimal(n);
    DecimalIsInjective(m, n);
  }

  lemma {:induction false} InFirstIDs(n: nat, k: nat)
    ensures SubID(k) in FirstIDs(n) <==> 1 <= k <= n
  {
    if n > 0 {
      InFirstIDs(n - 1, k);
      if SubID(k) == SubID(n) {
        SubIDIsInjective(k, n);
      }
    }
  }

  lemma {:induction false} CountFirstIDs(n: nat)
    ensures |FirstIDs(n)| == n
  {
    if n > 0 {
      CountFirstIDs(n - 1);
      InFirstIDs(n - 1, n);
    }
  }

  /** Of the first `n` subscribers, `gone` have left. The next id is one still in
      use if and only if somebody left, and the subscriber with that id did not. */
  lemma NextIDInUse(n: nat, gone: set<string>)
    requires gone <= FirstIDs(n)
    ensures var left := FirstIDs(n) - gone;
            && |gone| <= n && |left| == n - |gone|
            && (SubID(|left| + 1) in left <==> gone != {} && SubID(n - |gone| + 1) !in gone)
  {
    CountFirstIDs(n);
    var left := FirstIDs(n) - gone;
    assert FirstIDs(n) == left + gone;
    InFirstIDs(n, |left| + 1);
  }

  /** So as long as nobody unsubscribes, the next id is new. */
  lemma NextIDIsNew(n: nat)
    ensures SubID(|FirstIDs(n)| + 1) !in FirstIDs(n)
  {
    NextIDInUse(n, {});
    assert FirstIDs(n) - {} == FirstIDs(n);
  }

  // ---- The hub ----

  function SubsOf(subs: map<string, map<string, Channel>>, deviceID: string): map<string, Channel> {
    if deviceID in subs then subs[deviceID] else map[]
  }

  /** A registered channel belongs to its subscriber and its device, and is open. */
  ghost predicate Filed(subs: map<string, map<string, Channel>>, closed: set<Channel>, channels: set<Channel>,
                        deviceID: string, subID: string) {
    subID in SubsOf(subs, deviceID) ==>
      var channel := SubsOf(subs, deviceID)[subID];
      && channel.deviceID == deviceID && channel.subID == subID
      && channel in channels && channel !in closed
  }

  ghost predicate AllFiled(subs: map<string, map<string, Channel>>, closed: set<Channel>, channels: set<Channel>) {
    forall deviceID, subID :: Filed(subs, closed, channels, deviceID, subID)
  }

  /** The subscriptions without one of them; a device without subscribers is forgotten. */
  function Removed(subs: map<string, map<string, Channel>>, deviceID: string, subID: string): map<string, map<string, Channel>> {
    var byID := SubsOf(subs, deviceID) - {subID};
    if byID == map[] then subs - {deviceID} else subs[deviceID := byID]
  }

  lemma RemovedIsFiled(subs: map<string, map<string, Channel>>, closed: set<Channel>, channels: set<Channel>,
                       deviceID: string, subID: string, gone: set<Channel>)
    requires AllFiled(subs, closed, channels)
    requires gone == if subID in SubsOf(subs, deviceID) then {SubsOf(subs, deviceID)[subID]} else {}
    ensures var after := Removed(subs, deviceID, subID);
            && SubsOf(after, deviceID) == SubsOf(subs, deviceID) - {subID}
            && (forall other :: other != deviceID ==> SubsOf(after, other) == SubsOf(subs, other))
            && AllFiled(after, closed + gone, channels)
  {
    var after := Removed(subs, deviceID, subID);
    forall d, s ensures Filed(after, closed + gone, channels, d, s) {
      assert Filed(subs, closed, channels, d, s) && Filed(subs, closed, channels, deviceID, subID);
    }
  }

  /** This subscriber's channel is registered no more, and nobody closed it. */
  predicate Lost(before: map<string, Channel>, after: map<string, Channel>, closed: set<Channel>, subID: string) {
    subID in before && before[subID] !in after.Values && before[subID] !in closed
  }

  lemma SubscribedIsFiled(subs: map<string, map<string, Channel>>, closed: set<Channel>, channels: set<Channel>,
                          deviceID: string, id: string, channel: Channel)
    requires AllFiled(subs, closed, channels)
    requires channel.deviceID == deviceID && channel.subID == id && channel !in closed && channel !in channels
    ensures var before := SubsOf(subs, deviceID);
            var next := subs[deviceID := before[id := channel]];
            && AllFiled(next, closed, channels + {channel})
            && ((exists subID :: Lost(before, SubsOf(next, deviceID), closed, subID)) <==> id in before)
  {
    var before := SubsOf(subs, deviceID);
    var next := subs[deviceID := before[id := channel]];
    var after := SubsOf(next, deviceID);
    forall d, s ensures Filed(next, closed, channels + {channel}, d, s) {
      assert Filed(subs, closed, channels, d, s);
    }
    forall s | s in before && s != id ensures before[s] in after.Values {
      assert s in after && after[s] == before[s];
    }
    if id in before {
      forall s | s in after ensures after[s] != before[id] {
        assert Filed(subs, closed, channels, deviceID, s) && Filed(subs, closed, channels, deviceID, id);
      }
      assert Filed(subs, closed, channels, deviceID, id);
      assert Lost(before, after, closed, id);
    }
  }

  predicate Separate(a: Held, b: Held) {
    a.docs !! b.docs && a.maps !! b.maps
  }

  class Hub {
    const store: Store
    var subs: map<string, map<string, Channel>>
    var queued: map<string, Document>

    /** The channels that were closed, those ever registered, and every object
        that was ever queued or sent. */
    ghost var closed: set<Channel>
    ghost var channels: set<Channel>
    ghost var given: Held

    function Subscribers(deviceID: string): map<string, Channel>
      reads `subs
    {
      SubsOf(subs, deviceID)
    }

    /** Every registered channel is its subscriber's own, and open. */
    ghost predicate Valid()
      reads `subs, `closed, `channels
    {
      AllFiled(subs, closed, channels)
    }

    /** Everything in a channel was made for the hub. */
    ghost predicate Sent(channel: Channel)
      reads channel, `given, given.docs
    {
      forall doc :: doc in channel.buffer ==> doc in given.docs && Holds(given, doc)
    }

    /** What is queued and what waits in channels shares nothing with the store,
        neither documents nor their maps. */
    ghost predicate Isolated()
      reads `queued, `channels, `given, channels, given.docs, store`ledger
    {
      && (forall id :: id in queued ==> queued[id] in given.docs && Holds(given, queued[id]))
      && (forall channel :: channel in channels ==> Sent(channel))
      && Separate(given, store.ledger.live) && Separate(given, store.ledger.past)
    }

    constructor (store: Store)
      ensures Valid() && Isolated() && this.store == store
      ensures subs == map[] && queued == map[] && closed == {}
    {
      this.store := store;
      subs, queued, closed, channels := map[], map[], {}, {};
      given := Held({}, {});
    }

    /** Whatever the store takes on later, it stays apart from what the hub holds. */
    twostate lemma StoreKeepsIsolation()
      requires old(Isolated()) && store.Grew()
      requires unchanged(this) && unchanged(channels) && unchanged(given.docs)
      ensures Isolated()
    {
      forall channel | channel in channels ensures Sent(channel) {
        assert old(Sent(channel));
      }
    }

    /** A snapshot taken from a channel is the subscriber's: whatever it does to
        the document and its maps, no stored document and no history changes. */
    method ChangeReceived(channel: Channel, k: nat, value: Doc)
      requires store.Valid() && Isolated() && channel in channels && k < |channel.buffer|
      modifies channel.buffer[k].Parts()
      ensures store.Valid()
      ensures forall id :: store.View(id) == old(store.View(id))
    {
      assert Sent(channel);
      store.ChangeOutside(channel.buffer[k], value);
    }

    // ---- Subscriptions ----

    /** The subscriptions of one device and its mark are those of the protocol. */
    ghost predicate Follows(h: P.Hub, deviceID: string)
      reads `subs, `queued
    {
      (h.dirty <==> deviceID in queued) && h.need.Keys == Subscribers(deviceID).Keys
    }

    /** The critical sections are steps of the protocol: a notification that
        calls for a flush, whichever flusher takes the mark, and a new subscriber. */
    twostate lemma NotifyIsStep(deviceID: string, h: P.Hub, c: nat)
      requires old(Follows(h, deviceID)) && P.Enabled(h, P.Notify(c))
      requires unchanged(`subs) && deviceID in queued
      ensures Follows(P.Next(h, P.Notify(c)), deviceID)
    {
    }

    twostate lemma TakeIsStep(deviceID: string, h: P.Hub, f: nat)
      requires old(Follows(h, deviceID)) && P.Enabled(h, P.Take(f))
      requires unchanged(`subs) && queued == old(queued) - {deviceID}
      ensures var next := P.Next(h, P.Take(f));
              && Follows(next, deviceID)
              && next.flushers[f] == if deviceID in old(queued) then P.Reading(Subscribers(deviceID).Keys) else P.Exited
    {
    }

    /** So is each offer: a flusher that has offered to `sent` has the others left,
        and ends its round once it offered to all. */
    twostate lemma OfferIsStep(deviceID: string, h: P.Hub, f: nat, id: string, sent: set<string>)
      requires old(Follows(h, deviceID)) && P.Enabled(h, P.Offer(f, id))
      requires unchanged(`subs) && unchanged(`queued)
      requires sent <= Subscribers(deviceID).Keys && h.flushers[f].remaining == Subscribers(deviceID).Keys - sent
      ensures var next := P.Next(h, P.Offer(f, id));
              && Follows(next, deviceID)
              && next.flushers[f] == P.Sending(h.flushers[f].snapshot, Subscribers(deviceID).Keys - (sent + {id}))
              && (P.Enabled(next, P.Again(f)) <==> sent + {id} == Subscribers(deviceID).Keys)
    {
      var all := Subscribers(deviceID).Keys;
      assert all - sent - {id} == all - (sent + {id});
      assert id in all - sent;
      if all - (sent + {id}) == {} {
        assert forall x :: x in all ==> x in sent + {id};
      }
    }

    twostate lemma SubscribeIsStep(deviceID: string, h: P.Hub, id: string)
      requires old(Follows(h, deviceID)) && id !in old(Subscribers(deviceID))
      requires unchanged(`queued) && id in Subscribers(deviceID)
      requires Subscribers(deviceID) - {id} == old(Subscribers(deviceID))
      ensures Follows(P.Next(h, P.Subscribe(id)), deviceID)
    {
      assert Subscribers(deviceID).Keys == (Subscribers(deviceID) - {id}).Keys + {id};
    }

    /** Registers a subscriber under the next id. When that id is still in use, the
        subscriber that had it loses its channel, which stays open. */
    method Subscribe(deviceID: string, capacity: nat) returns (id: string, channel: Channel)
      requires Valid()
      requires |Subscribers(deviceID)| + 1 < INT64_LIMIT
      modifies this`subs, this`channels
      ensures Valid() && channels == old(channels) + {channel}
      ensures id == SubID(|old(Subscribers(deviceID))| + 1) == "sub-" + Decimal(|old(Subscribers(deviceID))| + 1)
      ensures fresh(channel) && channel.capacity == capacity && channel.buffer == []
      ensures subs == old(subs)[deviceID := Subscribers(deviceID)]
      ensures Subscribers(deviceID) == old(Subscribers(deviceID))[id := channel]
      ensures var before := old(Subscribers(deviceID));
              (exists subID :: Lost(before, Subscribers(deviceID), closed, subID)) <==> id in before
    {
      var byID := Subscribers(deviceID);
      var digits := Itoa.Itoa(|byID| + 1);
      id := "sub-" + digits;
      channel := new Channel(capacity, deviceID, id);
      SubscribedIsFiled(subs, closed, channels, deviceID, id, channel);
      ghost var next := subs[deviceID := byID[id := channel]];
      subs := subs[deviceID := byID[id := channel]];
      channels := channels + {channel};
      assert Subscribers(deviceID) == SubsOf(next, deviceID);
    }

    /** Removes a subscriber, closes its channel, and forgets a device without subscribers. */
    method Unsubscribe(deviceID: string, subID: string)
      requires Valid()
      modifies this`subs, this`closed
      ensures Valid()
      ensures subs == Removed(old(subs), deviceID, subID)
      ensures Subscribers(deviceID) == old(Subscribers(deviceID)) - {subID}
      ensures (Subscribers(deviceID) == map[] ==> deviceID !in subs) && subs - {deviceID} == old(subs) - {deviceID}
      ensures closed == old(closed) + if subID in old(Subscribers(deviceID))
                                      then {old(Subscribers(deviceID))[subID]} else {}
    {
      ghost var gone := if subID in Subscribers(deviceID) then {Subscribers(deviceID)[subID]} else {};
      RemovedIsFiled(subs, closed, channels, deviceID, subID, gone);
      closed := closed + gone;
      if deviceID !in subs {
        assert subs - {deviceID} == subs;
        return;
      }
      var byID := subs[deviceID];
      if subID in byID {
        byID := byID - {subID};
        subs := subs[deviceID := byID];
      }
      assert byID == SubsOf(old(subs), deviceID) - {subID};
      assert subs == old(subs)[deviceID := byID] && subs - {deviceID} == old(subs) - {deviceID};
      if byID == map[] {
        subs := subs - {deviceID};
      }
      assert subs == Removed(old(subs), deviceID, subID);
    }

    // ---- Notifications ----

    /** The commit hook. A delete takes the device off the queue; an event with a
        snapshot queues a copy of it and calls for a flush. */
    method Notify(event: ChangeEvent) returns (spawn: bool)
      requires Isolated()
      modifies this`queued, this`given
      ensures Isolated()
      ensures spawn <==> !event.kind.EventDelete? && event.snapshot != null
      ensures spawn ==>
                && event.deviceID in queued && fresh(queued[event.deviceID].Parts())
                && queued[event.deviceID].Value() == event.snapshot.Value()
                && queued == old(queued)[event.deviceID := queued[event.deviceID]]
      ensures !spawn ==> queued == if event.kind.EventDelete? then old(queued) - {event.deviceID} else old(queued)
    {
      if event.kind == EventDelete {
        queued := queued - {event.deviceID};
        return false;
      }
      if event.snapshot == null {
        return false;
      }
      var copy := event.snapshot.Clone();
      Give(copy);
      queued := queued[event.deviceID := copy];
      return true;
    }

    /** The hub holds this document and its maps from now on. */
    ghost method Give(copy: Document)
      requires Isolated() && Foreign(store.ledger, copy)
      modifies this`given
      ensures Isolated() && given == With(old(given), copy)
    {
      given := With(given, copy);
      forall channel | channel in channels ensures Sent(channel) {
        assert old(Sent(channel));
      }
    }

    /** The first critical section of a flush: takes the mark, and the channels of
        the moment. */
    method Take(deviceID: string) returns (dirty: bool, targets: map<string, Channel>)
      requires Isolated()
      modifies this`queued
      ensures Isolated()
      ensures dirty <==> deviceID in old(queued)
      ensures targets == Subscribers(deviceID) && queued == old(queued) - {deviceID}
      ensures store.View(deviceID) == old(store.View(deviceID))
    {
      dirty := deviceID in queued;
      queued := queued - {deviceID};
      targets := Subscribers(deviceID);
    }

    /** Offers one channel a copy made for it. */
    method SendOne(channel: Channel, doc: Document) returns (copy: Document)
      requires Isolated() && channel in channels
      modifies channel`buffer, this`given
      ensures Isolated() && given == With(old(given), copy)
      ensures fresh(copy.Parts()) && copy.Value() == doc.Value()
      ensures channel.buffer == channel.Offered(old(channel.buffer), copy)
    {
      copy := doc.Clone();
      Give(copy);
      channel.Offer(copy);
      forall other | other in channels ensures Sent(other) {
        assert old(Sent(other));
      }
    }

    /** Each of these subscribers was offered its own copy, made of objects that
        are not among `past`. */
    ghost predicate OwnCopies(copies: map<string, Document>, doc: Doc, past: Held)
      reads `given, given.docs, given.maps
    {
      && (forall subID :: subID in copies ==> Own(copies[subID], doc, past))
      && (forall a, b :: a in copies && b in copies && a != b ==> copies[a] != copies[b])
    }

    ghost predicate Own(copy: Document, doc: Doc, past: Held)
      reads `given, given.docs, given.maps
    {
      copy in given.docs && Holds(given, copy) && Misses(past, copy) && copy.Value() == doc
    }

    /** Each of these channels was offered its copy, if it has one; `before` says what it held. */
    ghost predicate AllOffered(targets: map<string, Channel>, before: map<string, seq<Document>>, copies: map<string, Document>)
      reads targets.Values
    {
      targets.Keys == before.Keys &&
      forall subID :: subID in targets ==>
        targets[subID].buffer == if subID in copies then targets[subID].Offered(before[subID], copies[subID]) else before[subID]
    }

    ghost function Buffers(targets: map<string, Channel>): map<string, seq<Document>>
      reads targets.Values
    {
      map subID | subID in targets :: targets[subID].buffer
    }

    /** Offers one more channel a copy of its own. */
    method SendNext(deviceID: string, subID: string, targets: map<string, Channel>, doc: Document,
                    ghost copies: map<string, Document>, ghost before: map<string, seq<Document>>, ghost past: Held)
      returns (ghost next: map<string, Document>)
      requires Valid() && Isolated() && targets == Subscribers(deviceID)
      requires subID in targets && subID !in copies
      requires past.docs <= given.docs && past.maps <= given.maps
      requires OwnCopies(copies, doc.Value(), past) && AllOffered(targets, before, copies)
      modifies this`given, targets[subID]
      ensures Isolated() && doc.Value() == old(doc.Value())
      ensures past.docs <= given.docs && past.maps <= given.maps
      ensures next.Keys == copies.Keys + {subID}
      ensures OwnCopies(next, doc.Value(), past) && AllOffered(targets, before, next)
    {
      assert Filed(subs, closed, channels, deviceID, subID);
      var copy := SendOne(targets[subID], doc);
      next := copies[subID := copy];
      forall other | other in next ensures Own(next[other], doc.Value(), past) {
        assert other in copies ==> old(Own(copies[other], doc.Value(), past));
      }
      forall other | other in targets && other != subID ensures targets[other] != targets[subID] {
        assert Filed(subs, closed, channels, deviceID, other) && Filed(subs, closed, channels, deviceID, subID);
      }
    }

    /** Offers each channel a copy of its own. */
    method Send(deviceID: string, targets: map<string, Channel>, doc: Document) returns (ghost copies: map<string, Document>)
      requires Valid() && Isolated() && targets == Subscribers(deviceID)
      modifies this`given, targets.Values
      ensures Isolated() && copies.Keys == targets.Keys
      ensures OwnCopies(copies, doc.Value(), old(given))
      ensures AllOffered(targets, old(Buffers(targets)), copies)
    {
      hide Isolated, Own, OwnCopies, AllOffered, Buffers, AllFiled;
      copies := map[];
      ghost var value, past, before := doc.Value(), given, Buffers(targets);
      NothingOffered(targets, value);
      var rest := targets.Keys;
      while rest != {}
        invariant rest <= targets.Keys && copies.Keys == targets.Keys - rest
        invariant Isolated() && doc.Value() == value && past.docs <= given.docs && past.maps <= given.maps
        invariant OwnCopies(copies, value, past) && AllOffered(targets, before, copies)
      {
        var subID :| subID in rest;
        rest := rest - {subID};
        copies := SendNext(deviceID, subID, targets, doc, copies, before, past);
      }
    }

    /** Reads the store, and offers each channel a copy of its own; nothing for a shadow that is gone. */
    method Push(deviceID: string, targets: map<string, Channel>) returns (ghost copies: map<string, Document>)
      requires Valid() && Isolated() && targets == Subscribers(deviceID)
      modifies this`given, targets.Values
      ensures Isolated() && AllOffered(targets, old(Buffers(targets)), copies)
      ensures copies.Keys == if store.View(deviceID).doc.Some? then targets.Keys else {}
      ensures store.View(deviceID).doc.Some? ==> OwnCopies(copies, store.View(deviceID).doc.value, old(given))
      ensures store.View(deviceID) == old(store.View(deviceID))
    {
      hide OwnCopies, AllOffered, AllFiled;
      var snap := store.Snapshot(deviceID);
      if snap == null {
        NothingOffered(targets, NewDoc(deviceID, 0));
        return map[];
      }
      copies := Send(deviceID, targets, snap);
    }

    /** One iteration of a flush: `earlier` is what was offered so far, which is
        nothing as long as the device is dirty. */
    method FlushOnce(deviceID: string, ghost earlier: map<string, Document>, ghost before: map<string, seq<Document>>,
                     ghost past: Held, ghost shown: Doc)
      returns (dirty: bool, ghost copies: map<string, Document>)
      requires Valid() && Isolated()
      requires store.View(deviceID).doc.Some? ==> shown == store.View(deviceID).doc.value
      requires deviceID in queued ==> earlier == map[] && given == past && before == Buffers(Subscribers(deviceID))
      requires AllOffered(Subscribers(deviceID), before, earlier) && OwnCopies(earlier, shown, past)
      modifies this`queued, this`given, Subscribers(deviceID).Values
      ensures Isolated() && store.View(deviceID) == old(store.View(deviceID))
      ensures (dirty <==> deviceID in old(queued)) && queued == old(queued) - {deviceID}
      ensures AllOffered(Subscribers(deviceID), before, copies) && OwnCopies(copies, shown, past)
      ensures !dirty ==> copies == earlier
      ensures dirty ==> copies.Keys == if store.View(deviceID).doc.Some? then Subscribers(deviceID).Keys else {}
    {
      hide Isolated, Stores.Store.View;
      var targets;
      dirty, targets := Take(deviceID);
      copies := earlier;
      if dirty {
        assert Buffers(targets) == before;
        copies := Push(deviceID, targets);
      }
    }

    /** A flush that runs alone. When the device is dirty it is cleaned, and each
        subscriber is offered its own copy of what the store holds now, whatever
        was queued; nothing is sent for a shadow that is gone. */
    method Flush(deviceID: string) returns (ghost copies: map<string, Document>)
      requires Valid() && Isolated()
      modifies this`queued, this`given, Subscribers(deviceID).Values
      ensures Isolated() && queued == old(queued) - {deviceID}
      ensures copies.Keys ==
                if deviceID in old(queued) && store.View(deviceID).doc.Some? then Subscribers(deviceID).Keys else {}
      ensures store.View(deviceID).doc.Some? ==> OwnCopies(copies, store.View(deviceID).doc.value, old(given))
      ensures AllOffered(Subscribers(deviceID), old(Buffers(Subscribers(deviceID))), copies)
    {
      hide Isolated, Stores.Store.View, OwnCopies, AllOffered, Buffers;
      copies := map[];
      ghost var past, before, doc := given, Buffers(Subscribers(deviceID)), store.View(deviceID).doc;
      ghost var shown := if doc.Some? then doc.value else NewDoc(deviceID, 0);
      NothingOffered(Subscribers(deviceID), shown);
      var dirty := true;
      while dirty
        invariant Isolated() && store.View(deviceID) == old(store.View(deviceID))
        invariant queued == old(queued) || queued == old(queued) - {deviceID}
        invariant dirty || queued == old(queued) - {deviceID}
        invariant deviceID in queued ==> copies == map[] && given == past && before == Buffers(Subscribers(deviceID))
        invariant copies.Keys == if queued != old(queued) && doc.Some? then Subscribers(deviceID).Keys else {}
        invariant AllOffered(Subscribers(deviceID), before, copies) && OwnCopies(copies, shown, past)
        decreases dirty, deviceID in queued
      {
        dirty, copies := FlushOnce(deviceID, copies, before, past, shown);
      }
    }

    lemma NothingOffered(targets: map<string, Channel>, doc: Doc)
      ensures AllOffered(targets, Buffers(targets), map[]) && OwnCopies(map[], doc, given)
    {
    }
  }

  /** Two subscribers, and the first leaves. */
  method OneOfTwoLeaves(hub: Hub, deviceID: string) returns (second: string, stays: Channel)
    requires hub.Valid() && hub.Subscribers(deviceID) == map[]
    modifies hub`subs, hub`channels, hub`closed
    ensures hub.Valid() && second == SubID(2)
    ensures hub.Subscribers(deviceID) == map[second := stays] && stays !in hub.closed
  {
    hide AllFiled, Lost, SubID, SubsOf, Removed;
    var first, one := hub.Subscribe(deviceID, 1);
    assert hub.Subscribers(deviceID) == map[first := one] && first == SubID(1);
    second, stays := hub.Subscribe(deviceID, 1);
    FirstTwo();
    assert second == SubID(2);
    hub.Unsubscribe(deviceID, first);
    assert hub.Subscribers(deviceID) == map[second := stays];
  }

  /** A third one that comes then gets the second one's id and takes its place,
      while the second one's channel is registered no more and never closed. */
  method TakeOver(hub: Hub, deviceID: string) returns (second: string, lost: Channel, third: string)
    requires hub.Valid() && hub.Subscribers(deviceID) == map[]
    modifies hub`subs, hub`channels, hub`closed
    ensures hub.Valid() && second == third
    ensures lost !in hub.Subscribers(deviceID).Values && lost !in hub.closed
  {
    hide AllFiled, Lost, SubID, SubsOf, Removed;
    second, lost := OneOfTwoLeaves(hub, deviceID);
    var two;
    third, two := hub.Subscribe(deviceID, 1);
    assert hub.Subscribers(deviceID) == map[second := two];
  }

  lemma FirstTwo()
    ensures SubID(1) != SubID(2)
  {
    if SubID(1) == SubID(2) {
      SubIDIsInjective(1, 2);
    }
  }

  /** What the hub does with a delete: the store announces and records one event of that kind,
      without a snapshot, and the hub drops whatever it had queued for the device. */
  method DeleteIsAnnounced(hub: Hub, deviceID: string, now: int) returns (spawn: bool)
    requires hub.store.Valid() && hub.Isolated()
    modifies hub`queued, hub`given
    modifies hub.store`documents, hub.store`tombstones, hub.store`history, hub.store`ledger
    ensures hub.store.Valid() && hub.Isolated()
    ensures Get(hub.store.ledger.emitted, deviceID) ==
              Get(old(hub.store.ledger.emitted), deviceID) + [Event(deviceID, EventDelete, 0, None, now)]
    ensures !spawn && hub.queued == old(hub.queued) - {deviceID}
    ensures hub.store.View(deviceID).doc.None?
  {
    hide StoredFor, Recorded;
    hub.store.Delete(deviceID, now);
    hub.StoreKeepsIsolation();
    spawn := hub.Notify(ChangeEvent(deviceID, EventDelete, 0, null, now));
  }
}
