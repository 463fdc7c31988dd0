/** packages/storage/src/local-object-store.ts: the store as an object, and as the map it stands for. */
module LocalObjectStores {
  import opened Wrappers
  import opened Utf16
  import opened ObjectKeys
  import opened ObjectTree
  import opened ObjectListing

  /* ----- Writing into the tree ----- */

  function SetEntry(entries: seq<Entry>, name: Text, node: Node): seq<Entry> {
    if entries == [] then [Entry(name, node)]
    else if entries[0].name == name then [Entry(name, node)] + entries[1..]
    else [entries[0]] + SetEntry(entries[1..], name, node)
  }

  function RemoveEntry(entries: seq<Entry>, name: Text): seq<Entry> {
    if entries == [] then []
    else if entries[0].name == name then entries[1..]
    else [entries[0]] + RemoveEntry(entries[1..], name)
  }

  /** The directory of that name, made if it is missing. */
  function Child(entries: seq<Entry>, name: Text): Node {
    var found := Find(entries, name);
    if found.Some? && found.value.Dir? then found.value else Dir([], None)
  }

  /** The object's directory is moved to its place; missing parents are made. */
  function PutIn(entries: seq<Entry>, segments: seq<Text>, head: Head): seq<Entry>
    requires segments != []
    decreases |segments|
  {
    if |segments| == 1 then SetEntry(entries, ObjectName(segments[0]), Dir([], Some(head)))
    else
      var child := Child(entries, DirectoryName(segments[0]));
      SetEntry(entries, DirectoryName(segments[0]), child.(entries := PutIn(child.entries, segments[1..], head)))
  }

  /** The object's directory is moved away; `empty` tells that the directory it was in can be removed too. */
  datatype Deleted = Deleted(entries: seq<Entry>, empty: bool)

  function DeleteIn(entries: seq<Entry>, segments: seq<Text>): Deleted
    requires segments != []
    decreases |segments|
  {
    if |segments| == 1 then
      var rest := RemoveEntry(entries, ObjectName(segments[0]));
      Deleted(rest, rest == [])
    else
      var name := DirectoryName(segments[0]);
      var found := Find(entries, name);
      if found.None? || found.value.OtherFile? then Deleted(entries, false)
      else
        var below := DeleteIn(found.value.entries, segments[1..]);
        if below.empty then
          var rest := RemoveEntry(entries, name);
          Deleted(rest, rest == [])
        else Deleted(SetEntry(entries, name, found.value.(entries := below.entries)), false)
  }

  lemma {:induction false} FindSet(entries: seq<Entry>, name: Text, node: Node, m: Text)
    ensures Find(SetEntry(entries, name, node), m) == if m == name then Some(node) else Find(entries, m)
  {
    if entries != [] && entries[0].name != name {
      FindSet(entries[1..], name, node, m);
    }
  }

  lemma {:induction false} FindRemoved(entries: seq<Entry>, name: Text, m: Text)
    requires AllNamedWell(entries)
    ensures Find(RemoveEntry(entries, name), m) == if m == name then None else Find(entries, m)
  {
    hide NamedWell;
    if entries != [] && entries[0].name != name {
      FindRemoved(entries[1..], name, m);
    }
  }

  lemma {:induction false} SetNamedWell(entries: seq<Entry>, name: Text, node: Node)
    requires AllNamedWell(entries) && NamedWell(Entry(name, node))
    ensures AllNamedWell(SetEntry(entries, name, node))
  {
    hide NamedWell;
    if entries != [] && entries[0].name != name {
      SetNamedWell(entries[1..], name, node);
      FindSet(entries[1..], name, node, entries[0].name);
    }
  }

  lemma {:induction false} RemoveNamedWell(entries: seq<Entry>, name: Text)
    requires AllNamedWell(entries)
    ensures AllNamedWell(RemoveEntry(entries, name))
  {
    hide NamedWell;
    if entries != [] && entries[0].name != name {
      RemoveNamedWell(entries[1..], name);
      FindRemoved(entries[1..], name, entries[0].name);
    }
  }

  /** Names of different segments differ, and objects and directories never share a name. */
  lemma NamesDiffer(a: Text, b: Text)
    requires IsSegment(a) && IsSegment(b)
    ensures ObjectName(a) == ObjectName(b) ==> a == b
    ensures DirectoryName(a) == DirectoryName(b) ==> a == b
    ensures ObjectName(a) != DirectoryName(b)
  {
    hide DecodeSegment, EncodeSegment, EndsWith, IsSegment, IsSegmentName;
    SegmentNames(a);
    SegmentNames(b);
  }

  lemma ChildNamedWell(entries: seq<Entry>, segment: Text)
    requires AllNamedWell(entries) && IsSegment(segment)
    ensures var found := Find(entries, DirectoryName(segment));
            && (found.Some? ==> found.value.Dir? && AllNamedWell(found.value.entries))
            && found == (if found.Some? then Some(Child(entries, DirectoryName(segment))) else None)
            && AllNamedWell(Child(entries, DirectoryName(segment)).entries)
  {
    hide EncodeSegment, DecodeSegment, IsSegment;
    SegmentNames(segment);
    if Find(entries, DirectoryName(segment)).Some? {
      FindInside(entries, DirectoryName(segment));
    }
  }

  lemma DirectoryEntryNamedWell(segment: Text, entries: seq<Entry>, sidecar: Option<Head>)
    requires IsSegment(segment) && AllNamedWell(entries)
    ensures NamedWell(Entry(DirectoryName(segment), Dir(entries, sidecar)))
    ensures NamedWell(Entry(ObjectName(segment), Dir([], sidecar)))
  {
    hide EncodeSegment, DecodeSegment, IsSegment, EndsWith;
    SegmentNames(segment);
  }

  /** After a put the object is there, and every other object is what it was. */
  lemma {:induction false} PutChangesOne(entries: seq<Entry>, segments: seq<Text>, head: Head, other: seq<Text>)
    requires AllNamedWell(entries) && AreSegments(segments) && AreSegments(other)
    ensures AllNamedWell(PutIn(entries, segments, head))
    ensures ObjectAt(Dir(PutIn(entries, segments, head), None), other) ==
            if other == segments then Some(Dir([], Some(head))) else ObjectAt(Dir(entries, None), other)
    decreases |segments|
  {
    hide EncodeSegment, DecodeSegment, IsSegment, NamedWell, ObjectName, DirectoryName;
    NamesDiffer(segments[0], other[0]);
    NamesDiffer(other[0], segments[0]);
    var theirs := if |other| == 1 then ObjectName(other[0]) else DirectoryName(other[0]);
    DirectoryEntryNamedWell(segments[0], [], Some(head));
    if |segments| == 1 {
      FindSet(entries, ObjectName(segments[0]), Dir([], Some(head)), theirs);
      SetNamedWell(entries, ObjectName(segments[0]), Dir([], Some(head)));
      OneSegment(segments, other);
    } else {
      var name := DirectoryName(segments[0]);
      ChildNamedWell(entries, segments[0]);
      var child := Child(entries, name);
      var more := if |other| > 1 then other[1..] else segments[1..];
      PutChangesOne(child.entries, segments[1..], head, more);
      var changed := child.(entries := PutIn(child.entries, segments[1..], head));
      DirectoryEntryNamedWell(segments[0], changed.entries, changed.sidecar);
      SetNamedWell(entries, name, changed);
      FindSet(entries, name, changed, theirs);
      if |other| > 1 {
        SameRest(segments, other);
        SameEntries(changed, other[1..]);
        SameEntries(child, other[1..]);
        NothingInside(None, other[1..]);
      }
    }
  }

  lemma OneSegment(a: seq<Text>, b: seq<Text>)
    requires |a| == 1 && b != []
    ensures a == b <==> |b| == 1 && a[0] == b[0]
  {
  }

  lemma SameRest(a: seq<Text>, b: seq<Text>)
    requires |a| > 1 && |b| > 1
    ensures a == b <==> a[0] == b[0] && a[1..] == b[1..]
  {
    if a[0] == b[0] && a[1..] == b[1..] {
      assert a == [a[0]] + a[1..] && b == [b[0]] + b[1..];
    }
  }

  /** Where an object lies depends on the entries of a directory alone. */
  lemma SameEntries(node: Node, segments: seq<Text>)
    requires node.Dir? && segments != []
    ensures ObjectAt(node, segments) == ObjectAt(Dir(node.entries, None), segments)
  {
  }

  lemma NothingInside(sidecar: Option<Head>, segments: seq<Text>)
    requires segments != []
    ensures ObjectAt(Dir([], sidecar), segments).None?
  {
  }

  /** After a delete the object is gone, and every other object is what it was. */
  lemma {:induction false} DeleteChangesOne(entries: seq<Entry>, segments: seq<Text>, other: seq<Text>)
    requires AllNamedWell(entries) && AreSegments(segments) && AreSegments(other)
    ensures AllNamedWell(DeleteIn(entries, segments).entries)
    ensures DeleteIn(entries, segments).empty ==> DeleteIn(entries, segments).entries == []
    ensures ObjectAt(Dir(DeleteIn(entries, segments).entries, None), other) ==
            if other == segments then None else ObjectAt(Dir(entries, None), other)
    decreases |segments|
  {
    hide EncodeSegment, DecodeSegment, IsSegment, NamedWell, ObjectName, DirectoryName;
    NamesDiffer(segments[0], other[0]);
    NamesDiffer(other[0], segments[0]);
    var theirs := if |other| == 1 then ObjectName(other[0]) else DirectoryName(other[0]);
    if |segments| == 1 {
      FindRemoved(entries, ObjectName(segments[0]), theirs);
      RemoveNamedWell(entries, ObjectName(segments[0]));
      OneSegment(segments, other);
    } else {
      var name := DirectoryName(segments[0]);
      ChildNamedWell(entries, segments[0]);
      if |other| > 1 {
        SameRest(segments, other);
      }
      var found := Find(entries, name);
      if found.Some? {
        var child := found.value;
        var below := DeleteIn(child.entries, segments[1..]);
        DeleteChangesOne(child.entries, segments[1..], if |other| > 1 then other[1..] else segments[1..]);
        FindRemoved(entries, name, theirs);
        RemoveNamedWell(entries, name);
        DirectoryEntryNamedWell(segments[0], below.entries, child.sidecar);
        SetNamedWell(entries, name, child.(entries := below.entries));
        FindSet(entries, name, child.(entries := below.entries), theirs);
        if |other| > 1 {
          SameEntries(child, other[1..]);
          SameEntries(child.(entries := below.entries), other[1..]);
          NothingInside(None, other[1..]);
        }
      }
    }
  }

  /* ----- Operations on the tree and on a map ----- */

  /** A create-only put leaves an existing object alone. */
  datatype Operation =
    | PutObject(key: Text, head: Head, createOnly: bool)
    | DeleteObject(key: Text)

  datatype PutResult = Created | Exists | InvalidKey

  predicate IsBlocked(existing: Option<Head>, createOnly: bool) {
    createOnly && existing.Some?
  }

  /** A create that finds the object of its own write id reports it as created. */
  function ResultOf(existing: Option<Head>, head: Head, createOnly: bool): PutResult {
    if IsBlocked(existing, createOnly) && !(head.writeId.Some? && existing.value.writeId == head.writeId) then Exists
    else Created
  }

  function Do(root: Node, op: Operation): Node {
    if root.OtherFile? || !IsKey(op.key) then root
    else
      match op
      case PutObject(key, head, createOnly) =>
        if IsBlocked(HeadAt(root, Parts(key)), createOnly) then root
        else Dir(PutIn(root.entries, Parts(key), head), root.sidecar)
      case DeleteObject(key) => Dir(DeleteIn(root.entries, Parts(key)).entries, root.sidecar)
  }

  function Lookup(contents: map<Text, Head>, key: Text): Option<Head> {
    if key in contents then Some(contents[key]) else None
  }

  function DoOnMap(contents: map<Text, Head>, op: Operation): map<Text, Head> {
    if !IsKey(op.key) then contents
    else
      match op
      case PutObject(key, head, createOnly) =>
        if IsBlocked(Lookup(contents, key), createOnly) then contents else contents[key := head]
      case DeleteObject(key) => contents - {key}
  }

  const EMPTY_TREE := Dir([], None)

  function Tree(ops: seq<Operation>): Node {
    if ops == [] then EMPTY_TREE else Do(Tree(ops[..|ops| - 1]), ops[|ops| - 1])
  }

  function Contents(ops: seq<Operation>): map<Text, Head> {
    if ops == [] then map[] else DoOnMap(Contents(ops[..|ops| - 1]), ops[|ops| - 1])
  }

  /** The heads in the tree are those of the map. */
  ghost predicate Holds(root: Node, contents: map<Text, Head>) {
    && (forall key :: IsKey(key) ==> HeadAt(root, Parts(key)) == Lookup(contents, key))
    && (forall key :: key in contents ==> IsKey(key))
  }

  lemma PutHeads(root: Node, segments: seq<Text>, head: Head, other: seq<Text>)
    requires root.Dir? && WellNamed(root) && AreSegments(segments) && AreSegments(other)
    ensures var next := Dir(PutIn(root.entries, segments, head), root.sidecar);
            && HeadAt(next, other) == (if other == segments then Some(head) else HeadAt(root, other))
            && (HasObject(next, other) ==> other == segments || HasObject(root, other))
  {
    hide AllNamedWell, PutIn, ObjectAt;
    var next := Dir(PutIn(root.entries, segments, head), root.sidecar);
    PutChangesOne(root.entries, segments, head, other);
    SameEntries(next, other);
    SameEntries(root, other);
  }

  lemma DeleteHeads(root: Node, segments: seq<Text>, other: seq<Text>)
    requires root.Dir? && WellNamed(root) && AreSegments(segments) && AreSegments(other)
    ensures var next := Dir(DeleteIn(root.entries, segments).entries, root.sidecar);
            && HeadAt(next, other) == (if other == segments then None else HeadAt(root, other))
            && (HasObject(next, other) ==> HasObject(root, other))
  {
    hide AllNamedWell, DeleteIn, ObjectAt;
    var next := Dir(DeleteIn(root.entries, segments).entries, root.sidecar);
    DeleteChangesOne(root.entries, segments, other);
    SameEntries(next, other);
    SameEntries(root, other);
  }

  lemma DoKeepsStore(root: Node, op: Operation)
    requires root.Dir? && StoreOk(root)
    ensures Do(root, op).Dir? && StoreOk(Do(root, op))
  {
    hide AllNamedWell, PutIn, DeleteIn, HasObject, AreSegments, Path, Parts, HeadAt;
    if IsKey(op.key) {
      var segments := Parts(op.key);
      PathOfParts(op.key);
      var next := Do(root, op);
      if op.PutObject? {
        PutChangesOne(root.entries, segments, op.head, segments);
      } else {
        DeleteChangesOne(root.entries, segments, segments);
      }
      forall other | AreSegments(other) && HasObject(next, other)
        ensures |Path(other)| <= MAX_KEY_BYTES
      {
        if op.PutObject? {
          PutHeads(root, segments, op.head, other);
        } else {
          DeleteHeads(root, segments, other);
        }
      }
    }
  }

  lemma KeysTell(a: Text, b: Text)
    requires Parts(a) == Parts(b)
    ensures a == b
  {
    PathOfParts(a);
    PathOfParts(b);
  }

  lemma DoRefines(root: Node, op: Operation, contents: map<Text, Head>)
    requires root.Dir? && StoreOk(root) && Holds(root, contents)
    ensures Holds(Do(root, op), DoOnMap(contents, op))
  {
    hide AllNamedWell, PutIn, DeleteIn, HasObject, AreSegments, Path, Parts, HeadAt;
    if IsKey(op.key) {
      forall key | IsKey(key)
        ensures HeadAt(Do(root, op), Parts(key)) == Lookup(DoOnMap(contents, op), key)
      {
        if Parts(key) == Parts(op.key) {
          KeysTell(key, op.key);
        }
        if op.PutObject? {
          PutHeads(root, Parts(op.key), op.head, Parts(key));
        } else {
          DeleteHeads(root, Parts(op.key), Parts(key));
        }
      }
    }
  }

  /** After any puts and deletes the tree holds exactly what a map of keys would. */
  lemma {:induction false} TreeRefinesMap(ops: seq<Operation>)
    ensures Tree(ops).Dir? && StoreOk(Tree(ops)) && Holds(Tree(ops), Contents(ops))
  {
    hide StoreOk, Holds, Do, DoOnMap;
    if ops == [] {
      EmptyStore();
    } else {
      TreeRefinesMap(ops[..|ops| - 1]);
      DoKeepsStore(Tree(ops[..|ops| - 1]), ops[|ops| - 1]);
      DoRefines(Tree(ops[..|ops| - 1]), ops[|ops| - 1], Contents(ops[..|ops| - 1]));
    }
  }

  /**
   * What a put reports and does, told from the map: a create-only put of a key that is there reports it as
   * existing, unless it was written under the same write id, and leaves it alone; any other put stores its object.
   */
  lemma PutIsTold(ops: seq<Operation>, key: Text, head: Head, createOnly: bool)
    requires IsKey(key)
    ensures var before, after := Contents(ops), Contents(ops + [PutObject(key, head, createOnly)]);
            var there := createOnly && key in before;
            && (ResultOf(HeadAt(Tree(ops), Parts(key)), head, createOnly) == Exists <==>
                  there && !(head.writeId.Some? && before[key].writeId == head.writeId))
            && (ResultOf(HeadAt(Tree(ops), Parts(key)), head, createOnly) == Created <==>
                  !there || (head.writeId.Some? && before[key].writeId == head.writeId))
            && after == if there then before else before[key := head]
  {
    hide Tree, HeadAt, Parts, IsKey, StoreOk;
    TreeRefinesMap(ops);
    var op := PutObject(key, head, createOnly);
    assert (ops + [op])[..|ops|] == ops;
    assert HeadAt(Tree(ops), Parts(key)) == Lookup(Contents(ops), key);
  }

  /** A delete takes its key out of the map, and nothing else. */
  lemma DeleteIsTold(ops: seq<Operation>, key: Text)
    ensures Contents(ops + [DeleteObject(key)]) == if IsKey(key) then Contents(ops) - {key} else Contents(ops)
  {
    hide IsKey;
    assert (ops + [DeleteObject(key)])[..|ops|] == ops;
  }

  lemma EmptyStore()
    ensures StoreOk(EMPTY_TREE) && Holds(EMPTY_TREE, map[])
  {
    hide Path, Parts;
    forall segments: seq<Text> | segments != []
      ensures ObjectAt(EMPTY_TREE, segments).None?
    {
      NothingInside(None, segments);
    }
  }

  /** Listing the store page by page gives exactly the map's objects under the prefix, in the order of their keys. */
  lemma ListingRefinesMap(ops: seq<Operation>, prefix: Text, limit: int)
    requires IsListInput(prefix, None, limit)
    ensures StoreOk(Tree(ops))
    ensures var all := AllPages(Tree(ops), prefix, None, limit);
            && InKeyOrder(all)
            && forall o :: o in all <==> o.key in Contents(ops) && prefix <= o.key && Contents(ops)[o.key] == o.head
  {
    hide StoreOk, Tree, Contents, AllPages, InKeyOrder, IsListInput, HeadAt, Parts, IsKey;
    TreeRefinesMap(ops);
    PagesListEverything(Tree(ops), prefix, limit);
  }

  /* ----- The store ----- */

  class LocalObjectStore {
    /** The directory below the objects root. */
    var root: Node

    constructor ()
      ensures Valid() && root == EMPTY_TREE
    {
      root := EMPTY_TREE;
      new;
      EmptyStore();
    }

    ghost predicate Valid()
      reads this
    {
      root.Dir? && StoreOk(root)
    }

    method Put(key: Text, head: Head, createOnly: bool) returns (result: PutResult)
      requires Valid()
      modifies this
      ensures Valid() && root == Do(old(root), PutObject(key, head, createOnly))
      ensures result == if IsKey(key) then ResultOf(HeadAt(old(root), Parts(key)), head, createOnly) else InvalidKey
    {
      hide StoreOk, IsKey, Parts, HeadAt, PutIn;
      DoKeepsStore(root, PutObject(key, head, createOnly));
      if !IsKey(key) {
        return InvalidKey;
      }
      var existing := HeadAt(root, Parts(key));
      if createOnly && existing.Some? {
        return if head.writeId.Some? && existing.value.writeId == head.writeId then Created else Exists;
      }
      root := Dir(PutIn(root.entries, Parts(key), head), root.sidecar);
      result := Created;
    }

    method Delete(key: Text) returns (ok: bool)
      requires Valid()
      modifies this
      ensures Valid() && root == Do(old(root), DeleteObject(key))
      ensures ok == IsKey(key)
    {
      hide StoreOk, IsKey, Parts, DeleteIn;
      DoKeepsStore(root, DeleteObject(key));
      ok := IsKey(key);
      if ok {
        root := Dir(DeleteIn(root.entries, Parts(key)).entries, root.sidecar);
      }
    }

    /** list({prefix, cursor, limit}) */
    method List(prefix: Text, cursor: Option<Text>, limit: int) returns (result: ListResult)
      ensures result == ListPage(root, prefix, cursor, limit)
    {
      hide Collected, Sort, Later, HeadAt, Parts, IsListInput, Base, CollectKeys, DirectoryAt;
      if !IsListInput(prefix, cursor, limit) {
        return InvalidInput;
      }
      var found := CollectPrefix(prefix);
      var keys := Sort(Later(found, cursor));
      var objects: seq<Listed> := [];
      var index := 0;
      assert limit >= 1 by { LimitOfInput(prefix, cursor, limit); }
      while index < |keys| && |objects| < limit
        invariant 0 <= index <= |keys|
        invariant PageFrom(root, keys, 0, [], limit) == PageFrom(root, keys, index, objects, limit)
        decreases |keys| - index
      {
        var key := keys[index];
        var head := HeadAt(root, Parts(key));
        if head.Some? {
          objects := objects + [Listed(key, head.value)];
        }
        index := index + 1;
      }
      if index < |keys| && objects != [] {
        result := Page(objects, Some(objects[|objects| - 1].key));
      } else {
        result := Page(objects, None);
      }
    }

    method CollectPrefix(prefix: Text) returns (keys: seq<Text>)
      ensures keys == Collected(root, prefix)
    {
      hide Parts, CollectKeys, DirectoryAt;
      var parts := Parts(prefix);
      var partial := parts[|parts| - 1];
      parts := parts[..|parts| - 1];
      var directory := DirectoryAt(root, parts);
      if directory.None? {
        return [];
      }
      keys := Collect(directory.value, Base(parts), partial);
    }
  }

  lemma LimitOfInput(prefix: Text, cursor: Option<Text>, limit: int)
    requires IsListInput(prefix, cursor, limit)
    ensures limit >= 1
  {
  }
}
