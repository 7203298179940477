/** Property-level differences between two snapshots of a shadow. */
module Diffs {
  import opened Model

  /** A subscriber sees one value for each property: the desired one, or else the reported one. */
  function Effective(doc: Doc): Props {
    doc.reported + doc.desired
  }

  function Lookup(props: Props, key: string): Option<string> {
    if key in props then Some(props[key]) else None
  }

  datatype Change = Change(deviceID: string, added: seq<string>, updated: seq<string>, removed: seq<string>)

  // ---- Key order ----

  predicate Less(a: string, b: string) {
    b != [] && (a == [] || a[0] < b[0] || (a[0] == b[0] && Less(a[1..], b[1..])))
  }

  lemma {:induction false} LessIsTotal(a: string, b: string)
    ensures !(Less(a, b) && Less(b, a))
    ensures a == b <==> !Less(a, b) && !Less(b, a)
  {
    if a != [] && b != [] && a[0] == b[0] {
      LessIsTotal(a[1..], b[1..]);
      assert a == [a[0]] + a[1..] && b == [b[0]] + b[1..];
    }
  }

  /** It is the order of a dictionary: the first difference decides, and a prefix comes first. */
  lemma {:induction false} LessAtFirstDifference(a: string, b: string)
    ensures Less(a, b) <==>
              exists i :: 0 <= i <= |a| && i < |b| && a[..i] == b[..i] && (i == |a| || a[i] < b[i])
  {
    if a == [] {
      assert b != [] ==> a[..0] == b[..0];
    } else if b != [] && a[0] == b[0] {
      LessAtFirstDifference(a[1..], b[1..]);
      if Less(a, b) {
        var i :| 0 <= i <= |a[1..]| && i < |b[1..]| && a[1..][..i] == b[1..][..i] && (i == |a[1..]| || a[1..][i] < b[1..][i]);
        assert a[..i + 1] == [a[0]] + a[1..][..i] && b[..i + 1] == [b[0]] + b[1..][..i];
      }
      if i :| 0 <= i <= |a| && i < |b| && a[..i] == b[..i] && (i == |a| || a[i] < b[i]) {
        assert i > 0;
        assert a[1..][..i - 1] == a[..i][1..] && b[1..][..i - 1] == b[..i][1..];
      }
    } else if b != [] {
      assert a[..0] == b[..0];
      if i :| 0 <= i <= |a| && i < |b| && a[..i] == b[..i] && (i == |a| || a[i] < b[i]) {
        assert i > 0 ==> a[..i][0] == b[..i][0];
      }
    }
  }

  lemma {:induction false} LessIsTransitive(a: string, b: string, c: string)
    requires Less(a, b) && Less(b, c)
    ensures Less(a, c)
  {
    if a != [] && a[0] == b[0] == c[0] {
      LessIsTransitive(a[1..], b[1..], c[1..]);
    }
  }

  /** Sorted, and so without duplicates. */
  ghost predicate Ascending(keys: seq<string>) {
    forall i, j :: 0 <= i < j < |keys| ==> Less(keys[i], keys[j])
  }

  lemma AscendingSnoc(keys: seq<string>, key: string)
    requires Ascending(keys) && forall k :: k in keys ==> Less(k, key)
    ensures Ascending(keys + [key])
  {
  }

  /** The list is sorted and holds exactly these keys. */
  ghost predicate Lists(list: seq<string>, keys: set<string>) {
    Ascending(list) && forall key :: key in list <==> key in keys
  }

  lemma NoKeys(list: seq<string>, keys: set<string>)
    requires Lists(list, keys)
    ensures list == [] <==> keys == {}
  {
    var all := set key | key in list;
    assert keys == all;
    if list != [] {
      assert list[0] in all;
    }
  }

  /** The last key of a sorted list is its largest. */
  lemma LastIsLargest(a: seq<string>, b: seq<string>, keys: set<string>)
    requires Lists(a, keys) && Lists(b, keys) && a != [] && b != []
    ensures a[|a| - 1] == b[|b| - 1]
  {
    var x, y := a[|a| - 1], b[|b| - 1];
    assert x in b && y in a;
    LessIsTotal(x, y);
  }

  lemma DropLast(list: seq<string>, keys: set<string>)
    requires Lists(list, keys) && list != []
    ensures Lists(list[..|list| - 1], keys - {list[|list| - 1]})
  {
    var last := |list| - 1;
    forall i | 0 <= i < last ensures list[i] != list[last] {
      LessIsTotal(list[i], list[last]);
    }
    assert list == list[..last] + [list[last]];
  }

  /** A sorted list is determined by its elements. */
  lemma {:induction false} ListIsUnique(a: seq<string>, b: seq<string>, keys: set<string>)
    requires Lists(a, keys) && Lists(b, keys)
    ensures a == b
  {
    NoKeys(a, keys);
    NoKeys(b, keys);
    if a != [] {
      LastIsLargest(a, b, keys);
      DropLast(a, keys);
      DropLast(b, keys);
      ListIsUnique(a[..|a| - 1], b[..|b| - 1], keys - {a[|a| - 1]});
      assert a == a[..|a| - 1] + [a[|a| - 1]] && b == b[..|b| - 1] + [b[|b| - 1]];
    }
  }

  /** Puts a new key in its place of a sorted list. */
  method Insert(keys: seq<string>, key: string) returns (out: seq<string>)
    requires Ascending(keys) && key !in keys
    ensures Ascending(out) && forall k :: k in out <==> k in keys || k == key
  {
    var i := 0;
    while i < |keys| && Less(keys[i], key)
      invariant 0 <= i <= |keys|
      invariant forall j :: 0 <= j < i ==> Less(keys[j], key)
    {
      i := i + 1;
    }
    out := keys[..i] + [key] + keys[i..];
    forall j | i <= j < |keys| ensures Less(key, keys[j]) {
      LessIsTotal(key, keys[i]);
      if i < j {
        LessIsTransitive(key, keys[i], keys[j]);
      }
    }
    assert keys == keys[..i] + keys[i..];
  }

  /** The keys in ascending order. */
  method SortKeys(keys: set<string>) returns (out: seq<string>)
    ensures Lists(out, keys)
  {
    out := [];
    var rest := keys;
    while rest != {}
      invariant rest <= keys
      invariant Lists(out, keys - rest)
    {
      var key :| key in rest;
      out := Insert(out, key);
      rest := rest - {key};
    }
  }

  // ---- The difference ----

  function AddedKeys(before: Props, after: Props): set<string> {
    after.Keys - before.Keys
  }

  function UpdatedKeys(before: Props, after: Props): set<string> {
    set key | key in before && key in after && before[key] != after[key]
  }

  /** The three lists name exactly the keys that appear, change their value, or disappear. */
  ghost predicate Exact(change: Change, before: Props, after: Props) {
    && Lists(change.added, AddedKeys(before, after))
    && Lists(change.updated, UpdatedKeys(before, after))
    && Lists(change.removed, AddedKeys(after, before))
  }

  /** The change between two optional snapshots; it is empty when either is missing. */
  ghost predicate IsDiff(change: Change, deviceID: string, before: Option<Doc>, after: Option<Doc>) {
    && change.deviceID == deviceID
    && if before.Some? && after.Some? then Exact(change, Effective(before.value), Effective(after.value))
       else change == Change(deviceID, [], [], [])
  }

  ghost function ValueAt(doc: Document?): Option<Doc>
    reads doc, if doc == null then {} else doc.Parts()
  {
    if doc == null then None else Some(doc.Value())
  }

  /** A property's value in a snapshot, the desired section first. */
  method ValueOf(doc: Document, key: string) returns (value: Option<string>)
    ensures value == Lookup(Effective(doc.Value()), key)
    ensures key in doc.desired.entries ==> value == Some(doc.desired.entries[key])
    ensures key !in doc.desired.entries && key in doc.reported.entries ==> value == Some(doc.reported.entries[key])
    ensures key !in doc.desired.entries && key !in doc.reported.entries ==> value == None
  {
    if key in doc.desired.entries {
      return Some(doc.desired.entries[key]);
    }
    if key in doc.reported.entries {
      return Some(doc.reported.entries[key]);
    }
    return None;
  }

  /** In the terms of the sections: desired values shadow reported ones, key by key. */
  lemma EffectiveBySection(doc: Doc, key: string)
    ensures key in doc.desired ==> Lookup(Effective(doc), key) == Some(doc.desired[key])
    ensures key !in doc.desired && key in doc.reported ==> Lookup(Effective(doc), key) == Some(doc.reported[key])
    ensures key !in doc.desired && key !in doc.reported ==> Lookup(Effective(doc), key) == None
  {
  }

  /** Which list names a key, told from the sections of two snapshots. A desired value that changes
      is an update. Under an unchanged desired value a reported change shows in no list. A
      reported value that loses its desired one, or gets one, is an update when the two differ.
      A key is added, or removed, exactly when one snapshot has it in no section. */
  lemma ListedBySection(change: Change, deviceID: string, before: Doc, after: Doc, key: string)
    requires IsDiff(change, deviceID, Some(before), Some(after))
    ensures key in before.desired && key in after.desired ==>
              && (key in change.updated <==> before.desired[key] != after.desired[key])
              && key !in change.added && key !in change.removed
    ensures key !in before.desired && key !in after.desired && key in before.reported && key in after.reported ==>
              && (key in change.updated <==> before.reported[key] != after.reported[key])
              && key !in change.added && key !in change.removed
    ensures key !in before.desired && key in before.reported && key in after.desired ==>
              (key in change.updated <==> before.reported[key] != after.desired[key])
    ensures key in before.desired && key !in after.desired && key in after.reported ==>
              (key in change.updated <==> before.desired[key] != after.reported[key])
    ensures key in change.added <==> key !in before.desired && key !in before.reported && (key in after.desired || key in after.reported)
    ensures key in change.removed <==> key !in after.desired && key !in after.reported && (key in before.desired || key in before.reported)
  {
    EffectiveBySection(before, key);
    EffectiveBySection(after, key);
    assert key in Effective(before) <==> Lookup(Effective(before), key).Some?;
    assert key in Effective(after) <==> Lookup(Effective(after), key).Some?;
  }

  method Diff(deviceID: string, oldDoc: Document?, newDoc: Document?) returns (change: Change)
    ensures IsDiff(change, deviceID, ValueAt(oldDoc), ValueAt(newDoc))
  {
    change := Change(deviceID, [], [], []);
    if oldDoc == null || newDoc == null {
      return;
    }
    var all := oldDoc.desired.entries.Keys + oldDoc.reported.entries.Keys +
               newDoc.desired.entries.Keys + newDoc.reported.entries.Keys;
    var keys := SortKeys(all);
    ghost var before, after := Effective(oldDoc.Value()), Effective(newDoc.Value());
    for i := 0 to |keys|
      invariant change.deviceID == deviceID
      invariant Lists(change.added, Part(AddedKeys(before, after), keys[..i]))
      invariant Lists(change.updated, Part(UpdatedKeys(before, after), keys[..i]))
      invariant Lists(change.removed, Part(AddedKeys(after, before), keys[..i]))
    {
      var key := keys[i];
      ListsSnoc(change.added, AddedKeys(before, after), keys, i);
      ListsSnoc(change.updated, UpdatedKeys(before, after), keys, i);
      ListsSnoc(change.removed, AddedKeys(after, before), keys, i);
      hide Lists, Part;
      var oldValue := ValueOf(oldDoc, key);
      var newValue := ValueOf(newDoc, key);
      if oldValue.None? && newValue.Some? {
        change := change.(added := change.added + [key]);
      } else if oldValue.Some? && newValue.None? {
        change := change.(removed := change.removed + [key]);
      } else if oldValue.Some? && newValue.Some? && oldValue != newValue {
        change := change.(updated := change.updated + [key]);
      }
    }
    PartOfAll(AddedKeys(before, after), keys, all);
    PartOfAll(UpdatedKeys(before, after), keys, all);
    PartOfAll(AddedKeys(after, before), keys, all);
    hide Lists, Part;
  }

  function Part(keys: set<string>, among: seq<string>): set<string> {
    set key | key in keys && key in among
  }

  lemma PartOfAll(wanted: set<string>, keys: seq<string>, all: set<string>)
    requires Lists(keys, all) && wanted <= all
    ensures Part(wanted, keys[..|keys|]) == wanted
  {
    assert keys[..|keys|] == keys;
  }

  /** Looking at one key more: when it is one of `wanted`, it goes to the end of the list. */
  lemma ListsSnoc(list: seq<string>, wanted: set<string>, keys: seq<string>, i: nat)
    requires Ascending(keys) && i < |keys| && Lists(list, Part(wanted, keys[..i]))
    ensures Lists(if keys[i] in wanted then list + [keys[i]] else list, Part(wanted, keys[..i + 1]))
  {
    assert keys[..i + 1] == keys[..i] + [keys[i]];
    forall key | key in list ensures Less(key, keys[i]) {
      assert key in keys[..i];
    }
    AscendingSnoc(list, keys[i]);
  }

  // ---- What the difference means ----

  /** There is one exact change between two views, in whatever order the maps list their keys. */
  lemma ExactIsUnique(a: Change, b: Change, before: Props, after: Props)
    requires Exact(a, before, after) && Exact(b, before, after) && a.deviceID == b.deviceID
    ensures a == b
  {
    ListIsUnique(a.added, b.added, AddedKeys(before, after));
    ListIsUnique(a.updated, b.updated, UpdatedKeys(before, after));
    ListIsUnique(a.removed, b.removed, AddedKeys(after, before));
  }

  /** Applies a change to a view; of the new values, only those of added and updated keys are used. */
  function Patched(before: Props, change: Change, values: Props): Props {
    (before - set key | key in change.removed) + (map key | key in change.added + change.updated && key in values :: values[key])
  }

  /** An exact change carries the old view to the new one, names each key at
      most once, and is empty exactly when nothing changed. */
  lemma ExactPatches(change: Change, before: Props, after: Props)
    requires Exact(change, before, after)
    ensures Patched(before, change, after) == after
    ensures forall key :: !(key in change.added && key in change.updated)
                       && !(key in change.added && key in change.removed)
                       && !(key in change.updated && key in change.removed)
    ensures change.added == change.updated == change.removed == [] <==> before == after
  {
    NoKeys(change.added, AddedKeys(before, after));
    NoKeys(change.updated, UpdatedKeys(before, after));
    NoKeys(change.removed, AddedKeys(after, before));
    if AddedKeys(before, after) == AddedKeys(after, before) == UpdatedKeys(before, after) == {} {
      forall key ensures (key in before <==> key in after) && (key in before ==> before[key] == after[key]) {
        assert key !in AddedKeys(before, after) && key !in AddedKeys(after, before) && key !in UpdatedKeys(before, after);
      }
      assert before == after;
    }
  }

  function ViewOf(doc: Option<Doc>): Props {
    if doc.None? then map[] else Effective(doc.value)
  }

  /** A missing snapshot hides what changed: the change is exact when both
      snapshots are there, and otherwise only when there was nothing to report. */
  lemma DiffIsExactWhen(change: Change, deviceID: string, before: Option<Doc>, after: Option<Doc>)
    requires IsDiff(change, deviceID, before, after)
    ensures Exact(change, ViewOf(before), ViewOf(after)) <==>
              (before.Some? && after.Some?) || ViewOf(before) == ViewOf(after)
  {
    if Exact(change, ViewOf(before), ViewOf(after)) {
      ExactPatches(change, ViewOf(before), ViewOf(after));
    } else if before.None? || after.None? {
      if ViewOf(before) == ViewOf(after) {
        assert Exact(change, ViewOf(before), ViewOf(after));
      }
    }
  }

  // ---- A history of changes ----

  ghost function SnapshotAt(history: seq<ChangeEvent>, i: int): Option<Doc>
    requires i < |history|
    reads if i < 0 then {} else {history[i].snapshot}, if i < 0 then {} else history[i].Parts()
  {
    if i < 0 then None else ValueAt(history[i].snapshot)
  }

  /** The change of each event against the event before it. */
  method ListChanges(deviceID: string, history: seq<ChangeEvent>) returns (changes: seq<Change>)
    ensures |changes| == |history|
    ensures forall i :: 0 <= i < |history| ==>
              IsDiff(changes[i], deviceID, SnapshotAt(history, i - 1), SnapshotAt(history, i))
  {
    changes := [];
    var previous: Document? := null;
    for i := 0 to |history|
      invariant |changes| == i
      invariant previous == if i == 0 then null else history[i - 1].snapshot
      invariant forall k :: 0 <= k < i ==>
                  IsDiff(changes[k], deviceID, SnapshotAt(history, k - 1), SnapshotAt(history, k))
    {
      label Before:
      ghost var earlier := changes;
      var change := Diff(deviceID, previous, history[i].snapshot);
      changes := changes + [change];
      forall k | 0 <= k <= i
        ensures IsDiff(changes[k], deviceID, SnapshotAt(history, k - 1), SnapshotAt(history, k))
      {
        assert SnapshotAt(history, k) == old@Before(SnapshotAt(history, k));
        assert SnapshotAt(history, k - 1) == old@Before(SnapshotAt(history, k - 1));
        assert k < i ==> changes[k] == earlier[k];
      }
      previous := history[i].snapshot;
    }
  }

  /** Folds the changes after the first snapshot over its view. */
  function Rebuilt(snapshots: seq<Doc>, changes: seq<Change>): Props
    requires |snapshots| == |changes| && snapshots != []
  {
    if |snapshots| == 1 then Effective(snapshots[0])
    else
      var last := |snapshots| - 1;
      Patched(Rebuilt(snapshots[..last], changes[..last]), changes[last], Effective(snapshots[last]))
  }

  /** Folding the changes along a history of snapshots rebuilds the last view from the first. */
  lemma {:induction false} HistoryRebuilds(deviceID: string, snapshots: seq<Doc>, changes: seq<Change>)
    requires |snapshots| == |changes| && snapshots != []
    requires forall i :: 1 <= i < |snapshots| ==>
               IsDiff(changes[i], deviceID, Some(snapshots[i - 1]), Some(snapshots[i]))
    ensures Rebuilt(snapshots, changes) == Effective(snapshots[|snapshots| - 1])
  {
    var last := |snapshots| - 1;
    if last > 0 {
      HistoryRebuilds(deviceID, snapshots[..last], changes[..last]);
      assert IsDiff(changes[last], deviceID, Some(snapshots[last - 1]), Some(snapshots[last]));
      ExactPatches(changes[last], Effective(snapshots[last - 1]), Effective(snapshots[last]));
    }
  }
}
