/** Shadow documents, operations and change events shared by every component. */
module Model {

  datatype Option<+T> = None | Some(value: T)

  type Props = map<string, string>

  datatype State = Created | Synced | Stale | Deleted

  /** The value of one shadow document at one moment. */
  datatype Doc = Doc(
    deviceID: string,
    desired: Props,
    reported: Props,
    desiredVersion: int,
    reportedVersion: int,
    version: int,
    state: State,
    updatedAt: int)

  datatype DesiredOp = DesiredOp(deviceID: string, props: Props, version: int, source: string)

  datatype ReportOp = ReportOp(deviceID: string, props: Props, baseVersion: int, version: int, clientID: string)

  datatype EventType = EventDesired | EventReport | EventDelete | EventReconnect

  /** The value of one change event; a delete carries no snapshot. */
  datatype Event = Event(deviceID: string, kind: EventType, version: int, snapshot: Option<Doc>, occurredAt: int)

  function MaxVersion(a: int, b: int): int {
    if a > b then a else b
  }

  function NewDoc(deviceID: string, now: int): Doc {
    Doc(deviceID, map[], map[], 0, 0, 0, Created, now)
  }

  function Refreshed(doc: Doc): Doc {
    doc.(version := MaxVersion(doc.desiredVersion, doc.reportedVersion))
  }

  function RolledBackDoc(doc: Doc, before: Props, version: int, now: int): Doc {
    Refreshed(doc.(desired := before,
                   desiredVersion := MaxVersion(doc.desiredVersion, version),
                   state := if before == map[] then Synced else Stale,
                   updatedAt := now))
  }

  /** A property map in memory. Two documents that hold the same map object would
      see each other's changes. */
  class PropMap {
    var entries: Props

    constructor ()
      ensures entries == map[]
    {
      entries := map[];
    }

    method Put(key: string, value: string)
      modifies this
      ensures entries == old(entries)[key := value]
    {
      entries := entries[key := value];
    }
  }

  /** Copies a property map into a new one, entry by entry, in whatever order the keys come. */
  method CloneMap(source: Props) returns (out: PropMap)
    ensures fresh(out) && out.entries == source
  {
    out := new PropMap();
    var rest := source.Keys;
    while rest != {}
      invariant rest <= source.Keys && fresh(out)
      invariant out.entries == source - rest
    {
      var key :| key in rest;
      out.Put(key, source[key]);
      rest := rest - {key};
    }
  }

  /** Overlays `overlay` on a copy of `base`: overlay values win, every other base entry survives. */
  method MergeMaps(base: Props, overlay: Props) returns (out: PropMap)
    ensures fresh(out)
    ensures out.entries.Keys == base.Keys + overlay.Keys
    ensures forall key :: key in out.entries ==> out.entries[key] == if key in overlay then overlay[key] else base[key]
    ensures out.entries == base + overlay
  {
    out := CloneMap(base);
    var rest := overlay.Keys;
    while rest != {}
      invariant rest <= overlay.Keys && fresh(out)
      invariant out.entries == base + (overlay - rest)
    {
      var key :| key in rest;
      out.Put(key, overlay[key]);
      rest := rest - {key};
    }
  }

  /** A shadow document in memory, with a map object for each section. A clone is a
      new object with new maps, so what is done to either never shows in the other. */
  class Document {
    const deviceID: string
    var desired: PropMap
    var reported: PropMap
    var desiredVersion: int
    var reportedVersion: int
    var version: int
    var state: State
    var updatedAt: int

    ghost function Value(): Doc
      reads this, desired, reported
    {
      Doc(deviceID, desired.entries, reported.entries, desiredVersion, reportedVersion, version, state, updatedAt)
    }

    /** The objects a document is made of. */
    ghost function Parts(): set<object>
      reads this
    {
      {this, desired, reported}
    }

    constructor (deviceID: string, now: int)
      ensures Value() == NewDoc(deviceID, now)
      ensures fresh(Parts()) && desired != reported
    {
      this.deviceID := deviceID;
      desired := new PropMap();
      reported := new PropMap();
      desiredVersion, reportedVersion, version := 0, 0, 0;
      state, updatedAt := Created, now;
    }

    method Clone() returns (out: Document)
      ensures fresh(out.Parts()) && out.desired != out.reported
      ensures out.Value() == Value()
    {
      out := new Document(deviceID, updatedAt);
      out.desired := CloneMap(desired.entries);
      out.reported := CloneMap(reported.entries);
      out.desiredVersion := desiredVersion;
      out.reportedVersion := reportedVersion;
      out.version := version;
      out.state := state;
    }

    /** Puts a former desired section back, at no lower a version. */
    method RollBack(before: Props, version: int, now: int)
      modifies this
      ensures Value() == RolledBackDoc(old(Value()), before, version, now)
      ensures fresh(desired) && reported == old(reported)
    {
      desired := CloneMap(before);
      desiredVersion := MaxVersion(desiredVersion, version);
      state := if |before| > 0 then Stale else Synced;
      RefreshWatermark();
      updatedAt := now;
    }

    method RefreshWatermark()
      modifies this`version
      ensures Value() == Refreshed(old(Value()))
    {
      version := MaxVersion(desiredVersion, reportedVersion);
    }
  }

  /** A change event in memory; its snapshot is a document object. */
  datatype ChangeEvent = ChangeEvent(
    deviceID: string,
    kind: EventType,
    version: int,
    snapshot: Document?,
    occurredAt: int)
  {
    ghost function Parts(): set<object>
      reads snapshot
    {
      if snapshot == null then {} else snapshot.Parts()
    }

    ghost function Value(): Event
      reads snapshot, Parts()
    {
      Event(deviceID, kind, version, if snapshot == null then None else Some(snapshot.Value()), occurredAt)
    }
  }
}
