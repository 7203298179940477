/** The in-memory shadow store. */
module Stores {
  import opened Model
  import opened Conflict
  import opened Shadow

  function Get<T>(m: map<string, seq<T>>, key: string): seq<T> {
    if key in m then m[key] else []
  }

  // ---- Who holds what ----

  /** Documents, and the section maps they are made of. */
  datatype Held = Held(docs: set<Document>, maps: set<PropMap>)

  /** The document and both of its sections are among these objects. */
  ghost predicate Holds(held: Held, doc: Document)
    reads doc
  {
    doc in held.docs && doc.desired in held.maps && doc.reported in held.maps
  }

  /** None of them is. */
  ghost predicate Misses(held: Held, doc: Document)
    reads doc
  {
    doc !in held.docs && doc.desired !in held.maps && doc.reported !in held.maps
  }

  ghost function With(held: Held, doc: Document): Held
    reads doc
  {
    Held(held.docs + {doc}, held.maps + {doc.desired, doc.reported})
  }

  /** What the store does not keep but its guarantees speak of: every event ever
      committed, every event the commit hook was called with, every object handed
      to the history, and every object ever stored. */
  datatype Ledger = Ledger(
    log: map<string, seq<Event>>,
    emitted: map<string, seq<Event>>,
    past: Held,
    live: Held)

  const FRESH := Ledger(map[], map[], Held({}, {}), Held({}, {}))

  /** Nothing that is or was stored belongs to the history too. */
  predicate Apart(ledger: Ledger) {
    ledger.live.docs !! ledger.past.docs && ledger.live.maps !! ledger.past.maps
  }

  /** The store holds no part of this document: it belongs to somebody else. */
  ghost predicate Foreign(ledger: Ledger, doc: Document)
    reads doc
  {
    Misses(ledger.live, doc) && Misses(ledger.past, doc)
  }

  // ---- The history ----

  /** The event in memory is made of the history's own objects, and has, right
      now, the value that was committed. */
  ghost predicate Kept(event: ChangeEvent, committed: Event, past: Held)
    reads past.docs, past.maps
  {
    && (event.snapshot != null ==> event.snapshot in past.docs && Holds(past, event.snapshot))
    && event.Value() == committed
  }

  /** `kept` is the window of `log`. */
  ghost predicate Recorded(kept: seq<ChangeEvent>, log: seq<Event>, past: Held)
    reads past.docs, past.maps
  {
    |kept| == |Window(log)| &&
    forall i :: 0 <= i < |kept| ==> Kept(kept[i], Window(log)[i], past)
  }

  /** What the history holds once an event is recorded. */
  ghost function Plus(past: Held, event: ChangeEvent): Held
    reads event.snapshot
  {
    if event.snapshot == null then past else With(past, event.snapshot)
  }

  lemma WindowsMatch(kept: seq<ChangeEvent>, values: seq<Event>, past: Held)
    requires |kept| == |values| && forall i :: 0 <= i < |kept| ==> Kept(kept[i], values[i], past)
    ensures |Window(kept)| == |Window(values)|
    ensures forall i :: 0 <= i < |Window(kept)| ==> Kept(Window(kept)[i], Window(values)[i], past)
  {
    hide Kept;
  }

  lemma RecordedAppend(kept: seq<ChangeEvent>, log: seq<Event>, past: Held, event: ChangeEvent)
    requires Recorded(kept, log, past)
    ensures Recorded(Window(kept + [event]), log + [event.Value()], Plus(past, event))
  {
    hide Window;
    WindowOfAppend(log, event.Value());
    var all, values := kept + [event], Window(log) + [event.Value()];
    forall i | 0 <= i < |all| ensures Kept(all[i], values[i], Plus(past, event)) {
      assert i < |kept| ==> Kept(kept[i], Window(log)[i], past);
    }
    WindowsMatch(all, values, Plus(past, event));
  }

  /** Every history is the window of its log. */
  ghost predicate AllRecorded(history: map<string, seq<ChangeEvent>>, log: map<string, seq<Event>>, past: Held)
    reads past.docs, past.maps
  {
    forall id :: Recorded(Get(history, id), Get(log, id), past)
  }

  lemma AllRecordedAppend(
      history: map<string, seq<ChangeEvent>>, log: map<string, seq<Event>>, past: Held, event: ChangeEvent)
    requires AllRecorded(history, log, past)
    ensures var id := event.deviceID;
            AllRecorded(history[id := Window(Get(history, id) + [event])],
                        log[id := Get(log, id) + [event.Value()]],
                        Plus(past, event))
  {
    var id := event.deviceID;
    var newHistory := history[id := Window(Get(history, id) + [event])];
    var newLog := log[id := Get(log, id) + [event.Value()]];
    forall other ensures Recorded(Get(newHistory, other), Get(newLog, other), Plus(past, event)) {
      assert Recorded(Get(history, other), Get(log, other), past);
      if other == id {
        RecordedAppend(Get(history, id), Get(log, id), past, event);
      }
    }
  }

  // ---- The stored documents ----

  ghost predicate StoredFor(documents: map<string, Document>, tombstones: map<string, int>, live: Held, id: string)
    reads live.docs
  {
    id in documents ==>
      documents[id].deviceID == id && documents[id] in live.docs && Holds(live, documents[id]) && id !in tombstones
  }

  /** Stored documents are distinct objects (each carries its own device id) made
      of the store's own objects, and none of them is tombstoned. */
  ghost predicate AllStored(documents: map<string, Document>, tombstones: map<string, int>, live: Held)
    reads live.docs
  {
    forall id :: StoredFor(documents, tombstones, live, id)
  }

  lemma AllStoredAfterPut(documents: map<string, Document>, tombstones: map<string, int>, live: Held,
                          id: string, doc: Document)
    requires AllStored(documents, tombstones, live)
    requires doc.deviceID == id && id !in tombstones
    ensures AllStored(documents[id := doc], tombstones, With(live, doc))
  {
    var after := documents[id := doc];
    forall other ensures StoredFor(after, tombstones, With(live, doc), other) {
      assert StoredFor(documents, tombstones, live, other);
    }
  }

  lemma AllStoredAfterDelete(documents: map<string, Document>, tombstones: map<string, int>, live: Held, id: string, now: int)
    requires AllStored(documents, tombstones, live)
    ensures AllStored(documents - {id}, tombstones[id := now], live)
  {
    var after, buried := documents - {id}, tombstones[id := now];
    forall other ensures StoredFor(after, buried, live, other) {
      assert StoredFor(documents, tombstones, live, other);
    }
  }

  lemma StoredAreDistinct(documents: map<string, Document>, tombstones: map<string, int>, live: Held, id: string)
    requires AllStored(documents, tombstones, live) && id in documents
    ensures documents[id].deviceID == id && Holds(live, documents[id])
    ensures forall other :: other in documents && other != id ==> documents[other] != documents[id]
  {
    assert StoredFor(documents, tombstones, live, id);
    forall other | other in documents && other != id ensures documents[other] != documents[id] {
      assert StoredFor(documents, tombstones, live, other);
    }
  }

  lemma SameDevice(doc: Doc, op: DesiredOp, now: int)
    ensures MergedDesired(doc, op, now).deviceID == doc.deviceID
  {
  }

  lemma SameReporter(policy: Policy, doc: Doc, op: ReportOp, now: int)
    ensures PolicyReport(policy, doc, op, now).deviceID == doc.deviceID
  {
  }

  /** A commit starts from the same document whether or not that was stored first. */
  lemma EnsuredWrite(s: Shadow, op: DesiredOp, now: int)
    ensures s.tombstone.Some? ==> CommitDesired(s, op, now) == s
    ensures s.tombstone.None? ==>
              CommitDesired(s.(doc := Some(Ensured(s, op.deviceID, now))), op, now) == CommitDesired(s, op, now)
  {
  }

  lemma EnsuredReport(s: Shadow, policy: Policy, op: ReportOp, now: int)
    ensures s.tombstone.Some? ==> CommitReport(s, policy, op, now) == s
    ensures s.tombstone.None? ==>
              CommitReport(s.(doc := Some(Ensured(s, op.deviceID, now))), policy, op, now) == CommitReport(s, policy, op, now)
  {
  }

  class Store {
    var documents: map<string, Document>
    var tombstones: map<string, int>
    var history: map<string, seq<ChangeEvent>>
    var policy: Policy
    ghost var ledger: Ledger

    /** Stored documents share nothing with the history, and histories are windows of their logs. */
    ghost predicate Intact()
      reads `documents, `tombstones, `history, `ledger, ledger.live.docs, ledger.past.docs, ledger.past.maps
    {
      && AllStored(documents, tombstones, ledger.live) && Apart(ledger)
      && AllRecorded(history, ledger.log, ledger.past)
    }

    /** And the commit hook was called with exactly the events that were recorded. */
    ghost predicate Valid()
      reads `documents, `tombstones, `history, `ledger, ledger.live.docs, ledger.past.docs, ledger.past.maps
    {
      Intact() && ledger.emitted == ledger.log
    }

    /** The objects that the state of one device is read from. */
    ghost function Parts(id: string): set<object>
      reads `documents, if id in documents then {documents[id]} else {}
    {
      if id in documents then documents[id].Parts() else {}
    }

    /** What the store holds for one device. */
    ghost function View(id: string): Shadow
      reads `documents, `tombstones, `ledger, if id in documents then {documents[id]} else {}, Parts(id)
    {
      Shadow(if id in documents then Some(documents[id].Value()) else None,
             if id in tombstones then Some(tombstones[id]) else None,
             Get(ledger.log, id))
    }

    constructor ()
      ensures Valid() && policy == Policy(false)
      ensures documents == map[] && tombstones == map[] && ledger == FRESH
      ensures forall id :: View(id) == EMPTY
    {
      documents, tombstones, history := map[], map[], map[];
      policy := Policy(false);
      ledger := FRESH;
    }

    /** A deep copy of the stored document, or null. */
    method Snapshot(id: string) returns (out: Document?)
      ensures out == null <==> View(id).doc.None?
      ensures out != null ==> fresh(out.Parts()) && out.desired != out.reported && out.Value() == View(id).doc.value
    {
      if id !in documents {
        return null;
      }
      out := documents[id].Clone();
    }

    // ---- Outside changes ----

    /** Views and histories depend on nothing but the store and the objects it holds. */
    twostate lemma OutsideChangesNothing()
      requires old(Valid()) && unchanged(this)
      requires unchanged(ledger.live.docs) && unchanged(ledger.live.maps)
      requires unchanged(ledger.past.docs) && unchanged(ledger.past.maps)
      ensures Valid()
      ensures forall id :: View(id) == old(View(id))
    {
      forall id ensures StoredFor(documents, tombstones, ledger.live, id) && View(id) == old(View(id)) {
        assert old(StoredFor(documents, tombstones, ledger.live, id));
      }
    }

    /** Whatever a caller does to a document that is not the store's (it changes
        every field, and both of its maps), no view and no history changes. */
    method ChangeOutside(doc: Document, value: Doc)
      requires Valid() && Foreign(ledger, doc)
      modifies doc, doc.desired, doc.reported
      ensures Valid()
      ensures forall id :: View(id) == old(View(id))
      ensures old(doc.desired).entries == value.desired
      ensures old(doc.desired) != old(doc.reported) ==> old(doc.reported).entries == value.reported
    {
      hide StoredFor, Recorded;
      doc.reported.entries := value.reported;
      doc.desired.entries := value.desired;
      doc.desiredVersion, doc.reportedVersion, doc.version := value.desiredVersion, value.reportedVersion, value.version;
      doc.state, doc.updatedAt := value.state, value.updatedAt;
      OutsideChangesNothing();
    }

    // ---- Events ----

    /** Calls the commit hook. The hook is foreign code: the ledger says what it was called with. */
    method Emit(event: ChangeEvent)
      modifies this`ledger
      ensures ledger == old(ledger).(
                emitted := old(ledger.emitted)[event.deviceID := Get(old(ledger.emitted), event.deviceID) + [event.Value()]])
    {
      ledger := ledger.(emitted := ledger.emitted[event.deviceID := Get(ledger.emitted, event.deviceID) + [event.Value()]]);
    }

    /** The ledger once an event is recorded. */
    ghost function Logged(event: ChangeEvent): Ledger
      reads `ledger, event.snapshot, event.Parts()
    {
      ledger.(log := ledger.log[event.deviceID := Get(ledger.log, event.deviceID) + [event.Value()]],
              past := Plus(ledger.past, event))
    }

    /** Appends an event to the capped history of its device. */
    method Record(event: ChangeEvent)
      requires Intact()
      requires event.snapshot != null ==> Misses(ledger.live, event.snapshot)
      modifies this`history, this`ledger
      ensures Intact() && ledger == old(Logged(event))
    {
      hide Recorded, StoredFor;
      var id := event.deviceID;
      var events := Get(history, id) + [event];
      if |events| > HISTORY_CAP {
        events := events[|events| - HISTORY_CAP..];
      }
      ghost var next := Logged(event);
      AllRecordedAppend(history, ledger.log, ledger.past, event);
      history := history[id := events];
      ledger := next;
    }

    /** The store has taken on new objects only. */
    twostate predicate Grew()
      reads this
    {
      && fresh(ledger.past.docs - old(ledger.past.docs)) && fresh(ledger.past.maps - old(ledger.past.maps))
      && fresh(ledger.live.docs - old(ledger.live.docs)) && fresh(ledger.live.maps - old(ledger.live.maps))
    }

    /** Announces and records a commit, each with a snapshot of its own. */
    method Announce(id: string, kind: EventType, merged: Document, now: int)
      requires Valid() && merged.deviceID == id
      modifies this`history, this`ledger
      ensures Valid() && Grew() && ledger.live == old(ledger.live)
      ensures ledger.log == old(ledger.log)[id := Get(old(ledger.log), id) +
                                            [Event(id, kind, merged.version, Some(merged.Value()), now)]]
    {
      hide Recorded, StoredFor;
      var hooked := merged.Clone();
      Emit(ChangeEvent(id, kind, merged.version, hooked, now));
      var recorded := merged.Clone();
      Record(ChangeEvent(id, kind, merged.version, recorded, now));
    }

    /** Stores a freshly merged document. */
    method Put(id: string, merged: Document)
      requires Valid() && merged.deviceID == id && Misses(ledger.past, merged) && id !in tombstones
      modifies this`documents, this`ledger
      ensures Valid()
      ensures documents == old(documents)[id := merged]
      ensures ledger == old(ledger).(live := With(old(ledger.live), merged))
    {
      hide Recorded, StoredFor;
      AllStoredAfterPut(documents, tombstones, ledger.live, id, merged);
      documents := documents[id := merged];
      ledger := ledger.(live := With(ledger.live, merged));
    }

    /** The store holds for this device what it held before, in the same objects. */
    twostate predicate SameFor(id: string)
      reads this
    {
      && (id in documents <==> id in old(documents))
      && (id in documents ==> documents[id] == old(documents)[id])
      && (id in tombstones <==> id in old(tombstones))
      && (id in tombstones ==> tombstones[id] == old(tombstones)[id])
      && Get(ledger.log, id) == Get(old(ledger.log), id)
    }

    /** Nothing but what the store holds for `id` may have changed. */
    twostate predicate OnlyChanged(id: string)
      reads this
    {
      && documents - {id} == old(documents) - {id} && tombstones - {id} == old(tombstones) - {id}
      && ledger.log - {id} == old(ledger.log) - {id} && Grew()
    }

    twostate lemma OthersStay(id: string)
      requires old(Valid()) && OnlyChanged(id)
      requires unchanged(old(ledger).live.docs) && unchanged(old(ledger).live.maps)
      ensures forall other :: other != id ==> View(other) == old(View(other))
    {
      var before, buried, log := old(documents) - {id}, old(tombstones) - {id}, old(ledger.log) - {id};
      forall other | other != id ensures View(other) == old(View(other)) {
        assert (other in documents <==> other in before) && (other in tombstones <==> other in buried);
        assert other in ledger.log <==> other in log;
        assert old(StoredFor(documents, tombstones, ledger.live, other));
        assert SameFor(other);
      }
    }

    /** The document a write starts from: null when the device is tombstoned,
        otherwise the stored document, or a new one stored for it. */
    method Ensure(id: string, now: int) returns (doc: Document?)
      requires Valid()
      modifies this`documents, this`ledger
      ensures Valid() && OnlyChanged(id)
      ensures ledger == old(ledger).(live := ledger.live)
      ensures doc == null <==> id in tombstones
      ensures doc != null ==>
                && doc.deviceID == id
                && View(id) == old(View(id)).(doc := Some(Ensured(old(View(id)), id, now)))
                && documents == old(documents)[id := doc]
                && (if id in old(documents) then doc == old(documents)[id] else fresh(doc))
      ensures doc == null ==> documents == old(documents)
    {
      hide Recorded, StoredFor;
      if id in tombstones {
        return null;
      }
      if id !in documents {
        doc := new Document(id, now);
        Put(id, doc);
      } else {
        StoredAreDistinct(documents, tombstones, ledger.live, id);
        doc := documents[id];
        assert documents[id := doc] == documents;
      }
    }

    /** Announces an event produced outside the store, and records it. The history
        keeps the very snapshot that the hook was given. */
    method Publish(event: ChangeEvent)
      requires Valid()
      requires event.snapshot != null ==> Misses(ledger.live, event.snapshot)
      modifies this`history, this`ledger
      ensures Valid()
      ensures ledger.log == old(Logged(event)).log && ledger.live == old(ledger.live)
      ensures ledger.past == Plus(old(ledger.past), event)
      ensures ledger.log - {event.deviceID} == old(ledger.log) - {event.deviceID}
    {
      hide Recorded, StoredFor;
      Emit(event);
      Record(event);
    }

    twostate lemma GrewByMerge(new merged: Document)
      requires fresh(merged.Parts()) && ledger.live == With(old(ledger.live), merged)
      requires fresh(ledger.past.docs - old(ledger.past.docs)) && fresh(ledger.past.maps - old(ledger.past.maps))
      ensures Grew()
    {
    }

    /** A published event with a snapshot of its own changes one device only. */
    twostate lemma GrewByEvent(id: string, new snapshot: Document?)
      requires unchanged(`documents) && unchanged(`tombstones)
      requires snapshot != null ==> fresh(snapshot.Parts())
      requires ledger.live == old(ledger.live)
      requires ledger.past == if snapshot == null then old(ledger.past) else With(old(ledger.past), snapshot)
      requires ledger.log - {id} == old(ledger.log) - {id}
      ensures OnlyChanged(id)
    {
    }

    /** Everything but what the store holds for `id`, and the objects it has taken on, is as before. */
    twostate predicate OthersSame(id: string)
      reads this
    {
      && documents - {id} == old(documents) - {id} && tombstones == old(tombstones)
      && ledger.log - {id} == old(ledger.log) - {id}
    }

    /** Stores and announces a merge. */
    method PutAndAnnounce(id: string, merged: Document, kind: EventType, now: int)
      requires Valid() && merged.deviceID == id && id !in tombstones
      requires Misses(ledger.past, merged)
      modifies this`documents, this`history, this`ledger
      ensures Valid()
      ensures fresh(ledger.past.docs - old(ledger.past.docs)) && fresh(ledger.past.maps - old(ledger.past.maps))
      ensures ledger.live == With(old(ledger.live), merged)
      ensures documents == old(documents)[id := merged]
      ensures ledger.log == old(ledger.log)[id := Get(old(ledger.log), id) +
                                            [Event(id, kind, merged.version, Some(merged.Value()), now)]]
    {
      hide Recorded, StoredFor;
      Put(id, merged);
      Announce(id, kind, merged, now);
    }

    /** Commits a merge, and returns a copy of it. */
    method Commit(id: string, merged: Document, kind: EventType, now: int) returns (out: Document)
      requires Valid() && merged.deviceID == id && id !in tombstones
      requires Misses(ledger.past, merged)
      modifies this`documents, this`history, this`ledger
      ensures Valid() && OthersSame(id) && ledger.live == With(old(ledger.live), merged)
      ensures fresh(ledger.past.docs - old(ledger.past.docs)) && fresh(ledger.past.maps - old(ledger.past.maps))
      ensures View(id) == Committed(old(View(id)), merged.Value(), kind, now)
      ensures fresh(out.Parts()) && Foreign(ledger, out) && out.Value() == merged.Value()
    {
      hide Recorded, StoredFor, With;
      PutAndAnnounce(id, merged, kind, now);
      out := merged.Clone();
    }

    /** Merges a write into the stored document and commits the result. */
    method AcceptWrite(doc: Document, op: DesiredOp, now: int) returns (out: Document)
      requires Valid() && op.deviceID in documents && op.deviceID !in tombstones
      requires doc == documents[op.deviceID] && doc.deviceID == op.deviceID
      modifies this`documents, this`history, this`ledger
      ensures Valid() && OnlyChanged(op.deviceID)
      ensures View(op.deviceID) == CommitDesired(old(View(op.deviceID)), op, now)
      ensures fresh(out.Parts()) && Foreign(ledger, out) && View(op.deviceID).doc == Some(out.Value())
    {
      hide Recorded, StoredFor, MergedDesired;
      var merged := MergeDesired(doc, op, now);
      assert merged.deviceID == op.deviceID by {
        assert merged.Value().deviceID == doc.Value().deviceID by {
          SameDevice(doc.Value(), op, now);
        }
      }
      out := Commit(op.deviceID, merged, EventDesired, now);
      GrewByMerge(merged);
    }

    /** Commits a desired write, unless the device is tombstoned. */
    method ApplyDesired(op: DesiredOp, now: int) returns (out: Document?)
      requires Valid()
      modifies this`documents, this`history, this`ledger
      ensures Valid() && OnlyChanged(op.deviceID)
      ensures View(op.deviceID) == CommitDesired(old(View(op.deviceID)), op, now)
      ensures out == null <==> op.deviceID in tombstones
      ensures out != null ==>
                && fresh(out.Parts()) && Foreign(ledger, out)
                && View(op.deviceID).doc == Some(out.Value())
    {
      hide Recorded, StoredFor, CommitDesired;
      EnsuredWrite(View(op.deviceID), op, now);
      var doc := Ensure(op.deviceID, now);
      if doc == null {
        return null;
      }
      out := AcceptWrite(doc, op, now);
    }

    /** Merges a report into the stored document that it is based on, and commits the result. */
    method AcceptReport(doc: Document, op: ReportOp, now: int) returns (out: Document)
      requires Valid() && op.deviceID in documents && op.deviceID !in tombstones
      requires doc == documents[op.deviceID] && doc.deviceID == op.deviceID
      modifies this`documents, this`history, this`ledger
      ensures Valid() && OnlyChanged(op.deviceID)
      ensures View(op.deviceID) ==
                Committed(old(View(op.deviceID)), PolicyReport(policy, old(doc.Value()), op, now), EventReport, now)
      ensures fresh(out.Parts()) && Foreign(ledger, out) && View(op.deviceID).doc == Some(out.Value())
    {
      hide Recorded, StoredFor, PolicyReport;
      var merged := Conflict.ApplyReport(policy, doc, op, now);
      assert merged.deviceID == op.deviceID by {
        assert merged.Value().deviceID == doc.Value().deviceID by {
          SameReporter(policy, doc.Value(), op, now);
        }
      }
      out := Commit(op.deviceID, merged, EventReport, now);
      GrewByMerge(merged);
    }

    /** Takes a report on the stored document, or discards it and returns a copy. */
    method TakeReport(doc: Document, op: ReportOp, now: int) returns (out: Document)
      requires Valid() && op.deviceID in documents && op.deviceID !in tombstones
      requires doc == documents[op.deviceID] && doc.deviceID == op.deviceID
      modifies this`documents, this`history, this`ledger
      ensures Valid() && OnlyChanged(op.deviceID)
      ensures View(op.deviceID) == CommitReport(old(View(op.deviceID)), policy, op, now)
      ensures fresh(out.Parts()) && Foreign(ledger, out) && View(op.deviceID).doc == Some(out.Value())
    {
      hide Recorded, StoredFor, PolicyReport, Committed;
      if op.baseVersion < doc.version {
        StoredIsLive(op.deviceID);
        out := doc.Clone();
        return;
      }
      out := AcceptReport(doc, op, now);
    }

    lemma StoredIsOwned(id: string)
      requires Valid()
      ensures id in documents ==> documents[id] in ledger.live.docs
    {
      assert StoredFor(documents, tombstones, ledger.live, id);
    }

    lemma StoredIsLive(id: string)
      requires Valid() && id in documents
      ensures Holds(ledger.live, documents[id])
    {
      assert StoredFor(documents, tombstones, ledger.live, id);
    }

    /** Commits a report that is based on the latest overall version; an older
        one is discarded as a whole, and a copy of the stored document returned. */
    method ApplyReport(op: ReportOp, now: int) returns (out: Document?)
      requires Valid()
      modifies this`documents, this`history, this`ledger
      ensures Valid() && OnlyChanged(op.deviceID)
      ensures View(op.deviceID) == CommitReport(old(View(op.deviceID)), policy, op, now)
      ensures out == null <==> op.deviceID in tombstones
      ensures out != null ==>
                && fresh(out.Parts()) && Foreign(ledger, out)
                && View(op.deviceID).doc == Some(out.Value())
    {
      hide Recorded, StoredFor, CommitReport;
      EnsuredReport(View(op.deviceID), policy, op, now);
      var doc := Ensure(op.deviceID, now);
      if doc == null {
        return null;
      }
      out := TakeReport(doc, op, now);
    }

    /** Removes the document and leaves a tombstone. */
    method Delete(id: string, now: int)
      requires Valid()
      modifies this`documents, this`tombstones, this`history, this`ledger
      ensures Valid() && OnlyChanged(id)
      ensures View(id) == CommitDelete(old(View(id)), id, now)
      ensures id !in documents && id in tombstones && tombstones[id] == now
      ensures Get(ledger.log, id) == Get(old(ledger.log), id) + [Event(id, EventDelete, 0, None, now)]
    {
      hide Recorded, StoredFor;
      AllStoredAfterDelete(documents, tombstones, ledger.live, id, now);
      documents := documents - {id};
      tombstones := tombstones[id := now];
      Emit(ChangeEvent(id, EventDelete, 0, null, now));
      Record(ChangeEvent(id, EventDelete, 0, null, now));
    }

    /** Drops the tombstones older than the cutoff and returns how many. */
    method GCTombstones(cutoff: int) returns (removed: nat)
      requires Valid()
      modifies this`tombstones
      ensures Valid()
      ensures forall id :: View(id) == CollectTombstone(old(View(id)), cutoff)
      ensures removed == |set id | id in old(tombstones) && old(tombstones)[id] < cutoff|
    {
      removed := 0;
      var rest := tombstones.Keys;
      ghost var dropped: set<string> := {};
      while rest != {}
        invariant rest <= old(tombstones).Keys && dropped !! rest
        invariant dropped == set id | id in old(tombstones) && id !in rest && old(tombstones)[id] < cutoff
        invariant tombstones == old(tombstones) - dropped
        invariant removed == |dropped|
      {
        var id :| id in rest;
        rest := rest - {id};
        if tombstones[id] < cutoff {
          tombstones := tombstones - {id};
          dropped := dropped + {id};
          removed := removed + 1;
        }
      }
      forall other ensures StoredFor(documents, tombstones, ledger.live, other) {
        assert StoredFor(documents, old(tombstones), ledger.live, other);
      }
      assert dropped == set id | id in old(tombstones) && old(tombstones)[id] < cutoff;
    }

    /** Moves a stored document to a state, in place. */
    method SetState(id: string, state: State, now: int)
      requires Valid()
      modifies if id in documents then {documents[id]} else {}
      ensures Valid()
      ensures forall other :: View(other) ==
                if other == id then WithState(old(View(id)), state, now) else old(View(other))
      ensures id in documents ==>
                var doc := documents[id];
                && doc.Value() == old(doc.Value()).(state := doc.state, updatedAt := doc.updatedAt)
                && doc.state == state && doc.updatedAt == now
    {
      if id !in documents {
        return;
      }
      StoredAreDistinct(documents, tombstones, ledger.live, id);
      var doc := documents[id];
      doc.state := state;
      doc.updatedAt := now;
      StoredAfterChange(id);
    }

    /** A change in place to one stored document, which keeps or renews its sections. */
    twostate lemma StoredAfterChange(id: string)
      requires old(Valid()) && unchanged(`documents) && unchanged(`tombstones) && unchanged(`history)
      requires ledger == old(ledger).(live := ledger.live) && old(ledger.live.docs) <= ledger.live.docs
      requires old(ledger.live.maps) <= ledger.live.maps && Apart(ledger)
      requires id in documents && Holds(ledger.live, documents[id])
      requires unchanged(ledger.past.docs) && unchanged(ledger.past.maps)
      requires forall other :: other in documents && other != id ==> unchanged(documents[other])
      ensures Valid()
    {
      forall other ensures StoredFor(documents, tombstones, ledger.live, other) {
        assert old(StoredFor(documents, tombstones, ledger.live, other));
      }
    }

    /** Marks the failed devices of a batch as stale. */
    method MarkBatchPartial(failed: seq<string>, now: int)
      requires Valid()
      modifies ledger.live.docs
      ensures Valid()
      ensures forall id :: View(id) == if id in failed then WithState(old(View(id)), Stale, now) else old(View(id))
    {
      for i := 0 to |failed|
        invariant Valid()
        invariant forall id :: View(id) ==
                    if id in failed[..i] then WithState(old(View(id)), Stale, now) else old(View(id))
      {
        assert StoredFor(documents, tombstones, ledger.live, failed[i]);
        SetState(failed[i], Stale, now);
        assert failed[..i + 1] == failed[..i] + [failed[i]];
      }
      assert failed[..|failed|] == failed;
    }

    /** Rolls the desired section of a stored document back to its pre-image, in place. */
    method Restore(id: string, before: Props, version: int, now: int)
      requires Valid()
      modifies this`ledger, if id in documents then {documents[id]} else {}
      ensures Valid() && Grew() && ledger == old(ledger).(live := ledger.live) && ledger.live.docs == old(ledger.live.docs)
      ensures forall other :: View(other) ==
                if other == id then Restored(old(View(id)), before, version, now) else old(View(other))
      ensures id in documents ==>
                var doc := documents[id];
                && doc.desired.entries == before && doc.reported == old(doc.reported)
                && doc.desiredVersion == MaxVersion(old(doc.desiredVersion), version)
                && doc.reportedVersion == old(doc.reportedVersion)
                && doc.version == MaxVersion(doc.desiredVersion, doc.reportedVersion)
                && doc.state == (if before == map[] then Synced else Stale) && doc.updatedAt == now
    {
      if id !in documents {
        return;
      }
      StoredAreDistinct(documents, tombstones, ledger.live, id);
      var doc := documents[id];
      doc.RollBack(before, version, now);
      ledger := ledger.(live := With(ledger.live, doc));
      assert ledger.live.docs == old(ledger.live.docs);
      StoredAfterChange(id);
    }

    /** The overall version of a stored document, or 0. */
    method Version(id: string) returns (version: int)
      ensures version == CurrentVersion(View(id))
      ensures version == if id in documents then documents[id].version else 0
    {
      version := if id in documents then documents[id].version else 0;
    }

    method IsTombstoned(id: string) returns (dead: bool)
      ensures dead <==> View(id).tombstone.Some?
    {
      dead := id in tombstones;
    }

    /** Publishes the reconnect of a device with its current version and snapshot. */
    method PublishReconnect(id: string, now: int)
      requires Valid()
      modifies this`history, this`ledger
      ensures Valid() && OnlyChanged(id)
      ensures View(id) == Published(old(View(id)), id, now)
    {
      hide StoredFor, Recorded;
      var version := Version(id);
      var snapshot := Snapshot(id);
      Publish(ChangeEvent(id, EventReconnect, version, snapshot, now));
      GrewByEvent(id, snapshot);
    }

    // ---- Reading the history ----

    /** The desired writes in the history that are newer than the watermark. */
    method ListDesiredSince(id: string, watermark: int) returns (ops: seq<DesiredOp>)
      requires Valid()
      ensures ops == DesiredSince(Window(View(id).log), id, watermark)
    {
      assert Recorded(Get(history, id), Get(ledger.log, id), ledger.past);
      ops := [];
      var events := Get(history, id);
      ghost var window := Window(Get(ledger.log, id));
      for i := 0 to |events|
        invariant forall k :: 0 <= k < |events| ==> Kept(events[k], window[k], ledger.past)
        invariant ops == DesiredSince(window[..i], id, watermark)
      {
        assert window[..i + 1][..i] == window[..i];
        var event := events[i];
        assert Kept(event, window[i], ledger.past);
        if event.kind != EventDesired || event.version <= watermark {
          continue;
        }
        if event.snapshot == null {
          continue;
        }
        var props := CloneMap(event.snapshot.desired.entries);
        ops := ops + [DesiredOp(id, props.entries, event.version, "reconnect")];
      }
      assert window[..|events|] == window;
    }

    /** The recent events of a device with snapshots of their own: whatever is
        done to the copies, the recorded history keeps its values. */
    method History(id: string) returns (out: seq<ChangeEvent>)
      requires Valid()
      ensures |out| == |Window(View(id).log)|
      ensures forall i :: 0 <= i < |out| ==> out[i].Value() == Window(View(id).log)[i] && fresh(out[i].Parts())
    {
      assert Recorded(Get(history, id), Get(ledger.log, id), ledger.past);
      out := [];
      var events := Get(history, id);
      ghost var window := Window(Get(ledger.log, id));
      for i := 0 to |events|
        invariant |out| == i
        invariant forall k :: 0 <= k < |events| ==> Kept(events[k], window[k], ledger.past)
        invariant forall k :: 0 <= k < i ==> out[k].Value() == window[k] && fresh(out[k].Parts())
      {
        var event := events[i];
        assert Kept(event, window[i], ledger.past);
        var snapshot: Document? := null;
        if event.snapshot != null {
          snapshot := event.snapshot.Clone();
        }
        out := out + [ChangeEvent(event.deviceID, event.kind, event.version, snapshot, event.occurredAt)];
      }
    }
  }
}
