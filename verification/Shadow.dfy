/** What the store holds for one device, and what each store operation does to it. */
module Shadow {
  import opened Model
  import opened Conflict

  const HISTORY_CAP := 20

  /** One device in the store. `log` is every change event ever committed, of
      which the store keeps only the window. */
  datatype Shadow = Shadow(doc: Option<Doc>, tombstone: Option<int>, log: seq<Event>)

  const EMPTY := Shadow(None, None, [])

  /** The events the capped history still holds: the last `HISTORY_CAP` of the log. */
  function Window<T>(log: seq<T>): seq<T> {
    if |log| > HISTORY_CAP then log[|log| - HISTORY_CAP..] else log
  }

  /** Trimming after each append keeps the window of the whole log. */
  lemma WindowOfAppend<T>(log: seq<T>, event: T)
    ensures Window(log + [event]) == Window(Window(log) + [event])
  {
  }

  /** The document an operation starts from: the stored one, or a new one. */
  function Ensured(s: Shadow, deviceID: string, now: int): Doc {
    if s.doc.Some? then s.doc.value else NewDoc(deviceID, now)
  }

  function Committed(s: Shadow, doc: Doc, kind: EventType, now: int): Shadow {
    s.(doc := Some(doc), log := s.log + [Event(doc.deviceID, kind, doc.version, Some(doc), now)])
  }

  function CommitDesired(s: Shadow, op: DesiredOp, now: int): Shadow {
    if s.tombstone.Some? then s
    else
      var current := Ensured(s, op.deviceID, now);
      Committed(s, MergedDesired(current, op, now), EventDesired, now)
  }

  /** The store trusts a report only when it is based on the overall version. */
  function CommitReport(s: Shadow, policy: Policy, op: ReportOp, now: int): Shadow {
    if s.tombstone.Some? then s
    else
      var current := Ensured(s, op.deviceID, now);
      if op.baseVersion < current.version then s.(doc := Some(current))
      else Committed(s, PolicyReport(policy, current, op, now), EventReport, now)
  }

  function CommitDelete(s: Shadow, deviceID: string, now: int): Shadow {
    Shadow(None, Some(now), s.log + [Event(deviceID, EventDelete, 0, None, now)])
  }

  function CollectTombstone(s: Shadow, cutoff: int): Shadow {
    if s.tombstone.Some? && s.tombstone.value < cutoff then s.(tombstone := None) else s
  }

  function WithState(s: Shadow, state: State, now: int): Shadow {
    if s.doc.None? then s else s.(doc := Some(s.doc.value.(state := state, updatedAt := now)))
  }

  function Restored(s: Shadow, before: Props, version: int, now: int): Shadow {
    if s.doc.None? then s
    else s.(doc := Some(RolledBackDoc(s.doc.value, before, version, now)))
  }

  function CurrentVersion(s: Shadow): int {
    if s.doc.None? then 0 else s.doc.value.version
  }

  function Published(s: Shadow, deviceID: string, now: int): Shadow {
    s.(log := s.log + [Event(deviceID, EventReconnect, CurrentVersion(s), s.doc, now)])
  }

  /** The desired writes among `events` that are newer than the watermark. */
  function DesiredSince(events: seq<Event>, deviceID: string, watermark: int): seq<DesiredOp> {
    if events == [] then []
    else
      var rest := DesiredSince(events[..|events| - 1], deviceID, watermark);
      var event := events[|events| - 1];
      if event.kind != EventDesired || event.version <= watermark || event.snapshot.None? then rest
      else rest + [DesiredOp(deviceID, event.snapshot.value.desired, event.version, "reconnect")]
  }
}
