/** packages/storage/src/local-object-store.ts: the directory tree that holds the objects. */
module ObjectTree {
  import opened Wrappers
  import opened Utf16
  import opened ObjectKeys

  /** What a sidecar says of an object. */
  datatype Head = Head(size: nat, etag: Text, uploadedAt: int, writeId: Option<Text>)

  /** A directory, with the object head of its sidecar file if it has one, or anything else. */
  datatype Node = Dir(entries: seq<Entry>, sidecar: Option<Head>) | OtherFile
  datatype Entry = Entry(name: Text, node: Node)

  /** ".o" and ".d" */
  const OBJECT_SUFFIX: Text := [DOT, 0x6F]
  const DIRECTORY_SUFFIX: Text := [DOT, 0x64]

  predicate EndsWith(name: Text, suffix: Text) {
    |name| >= |suffix| && name[|name| - |suffix|..] == suffix
  }

  function ObjectName(segment: Text): Text {
    EncodeSegment(segment) + OBJECT_SUFFIX
  }

  function DirectoryName(segment: Text): Text {
    EncodeSegment(segment) + DIRECTORY_SUFFIX
  }

  function Find(entries: seq<Entry>, name: Text): Option<Node> {
    if entries == [] then None
    else if entries[0].name == name then Some(entries[0].node)
    else Find(entries[1..], name)
  }

  /** The directory of the object with these segments, from a directory. */
  function ObjectAt(node: Node, segments: seq<Text>): Option<Node>
    requires segments != []
    decreases |segments|
  {
    if node.OtherFile? then None
    else if |segments| == 1 then Find(node.entries, ObjectName(segments[0]))
    else
      var child := Find(node.entries, DirectoryName(segments[0]));
      if child.None? then None else ObjectAt(child.value, segments[1..])
  }

  /** head(key): the sidecar of the object's directory. */
  function HeadAt(node: Node, segments: seq<Text>): Option<Head>
    requires segments != []
  {
    var found := ObjectAt(node, segments);
    if found.None? || found.value.OtherFile? then None else found.value.sidecar
  }

  /** The directory below some whole segments. */
  function DirectoryAt(node: Node, whole: seq<Text>): Option<Node>
    decreases |whole|
  {
    if whole == [] then Some(node)
    else if node.OtherFile? then None
    else
      var child := Find(node.entries, DirectoryName(whole[0]));
      if child.None? then None else DirectoryAt(child.value, whole[1..])
  }

  /* ----- collectKeys ----- */

  /** The keys that one entry stands for. */
  function KeysOfEntry(e: Entry, base: Text, partial: Text): seq<Text>
    decreases e, 1
  {
    if e.node.OtherFile? || !(EndsWith(e.name, OBJECT_SUFFIX) || EndsWith(e.name, DIRECTORY_SUFFIX)) then []
    else
      var segment := DecodeSegment(e.name[..|e.name| - 2]);
      if !(partial <= segment) then []
      else if EndsWith(e.name, OBJECT_SUFFIX) then [base + segment]
      else KeysOfEntries(e.node.entries, base + segment + [SLASH], [])
  }

  function KeysOfEntries(entries: seq<Entry>, base: Text, partial: Text): seq<Text>
    decreases entries
  {
    if entries == [] then []
    else KeysOfEntry(entries[0], base, partial) + KeysOfEntries(entries[1..], base, partial)
  }

  /** Keys under a directory whose next segment starts with `partial`. */
  function CollectKeys(node: Node, base: Text, partial: Text): seq<Text> {
    if node.OtherFile? then [] else KeysOfEntries(node.entries, base, partial)
  }

  method Collect(node: Node, base: Text, partial: Text) returns (keys: seq<Text>)
    ensures keys == CollectKeys(node, base, partial)
    decreases node
  {
    hide DecodeSegment;
    if node.OtherFile? {
      return [];
    }
    keys := [];
    var entries := node.entries;
    assert entries[0..] == entries;
    for i := 0 to |entries|
      invariant KeysOfEntries(entries, base, partial) == keys + KeysOfEntries(entries[i..], base, partial)
    {
      var entry := entries[i];
      ghost var before := keys;
      assert entries[i..][1..] == entries[i + 1..];
      NextEntry(entries, i, base, partial, before);
      if entry.node.OtherFile? {
        continue;
      }
      var isObject, isDirectory := EndsWith(entry.name, OBJECT_SUFFIX), EndsWith(entry.name, DIRECTORY_SUFFIX);
      if !isObject && !isDirectory {
        continue;
      }
      var segment := DecodeSegment(entry.name[..|entry.name| - 2]);
      if !(partial <= segment) {
        continue;
      }
      if isObject {
        keys := keys + [base + segment];
      } else {
        var below := Collect(entry.node, base + segment + [SLASH], []);
        keys := keys + below;
      }
    }
  }

  lemma NextEntry(entries: seq<Entry>, i: nat, base: Text, partial: Text, before: seq<Text>)
    requires i < |entries|
    ensures before + KeysOfEntries(entries[i..], base, partial) ==
            before + KeysOfEntry(entries[i], base, partial) + KeysOfEntries(entries[i + 1..], base, partial)
  {
    hide KeysOfEntry;
    assert entries[i..][1..] == entries[i + 1..];
  }

  /* ----- Trees as the store builds them ----- */

  /** An entry with a suffix of the store is a directory with the name of a segment; other entries do not matter. */
  predicate NamedWell(e: Entry)
    decreases e, 1
  {
    && (EndsWith(e.name, OBJECT_SUFFIX) ==> e.node.Dir? && IsSegmentName(e.name))
    && (EndsWith(e.name, DIRECTORY_SUFFIX) ==> e.node.Dir? && IsSegmentName(e.name) && AllNamedWell(e.node.entries))
  }

  predicate AllNamedWell(entries: seq<Entry>)
    decreases entries
  {
    entries != [] ==> NamedWell(entries[0]) && Find(entries[1..], entries[0].name).None? && AllNamedWell(entries[1..])
  }

  predicate IsSegmentName(name: Text)
  {
    && |name| >= 2
    && var segment := DecodeSegment(name[..|name| - 2]);
    IsSegment(segment) && EncodeSegment(segment) == name[..|name| - 2]
  }

  predicate WellNamed(node: Node) {
    node.Dir? ==> AllNamedWell(node.entries)
  }

  lemma SuffixesDiffer(stem: Text)
    ensures EndsWith(stem + OBJECT_SUFFIX, OBJECT_SUFFIX) && !EndsWith(stem + OBJECT_SUFFIX, DIRECTORY_SUFFIX)
    ensures EndsWith(stem + DIRECTORY_SUFFIX, DIRECTORY_SUFFIX) && !EndsWith(stem + DIRECTORY_SUFFIX, OBJECT_SUFFIX)
    ensures (stem + OBJECT_SUFFIX)[..|stem + OBJECT_SUFFIX| - 2] == stem
    ensures (stem + DIRECTORY_SUFFIX)[..|stem + DIRECTORY_SUFFIX| - 2] == stem
  {
    assert OBJECT_SUFFIX[1] != DIRECTORY_SUFFIX[1];
    var o, d := stem + OBJECT_SUFFIX, stem + DIRECTORY_SUFFIX;
    assert o[|o| - 2..] == OBJECT_SUFFIX && d[|d| - 2..] == DIRECTORY_SUFFIX;
  }

  /** A name that ends in a suffix is its stem and the suffix. */
  lemma NameOfStem(name: Text)
    requires |name| >= 2
    ensures EndsWith(name, OBJECT_SUFFIX) ==> name == name[..|name| - 2] + OBJECT_SUFFIX
    ensures EndsWith(name, DIRECTORY_SUFFIX) ==> name == name[..|name| - 2] + DIRECTORY_SUFFIX
  {
    assert name == name[..|name| - 2] + name[|name| - 2..];
  }

  lemma SegmentNames(s: Text)
    requires IsSegment(s)
    ensures IsSegmentName(ObjectName(s)) && IsSegmentName(DirectoryName(s))
    ensures EndsWith(ObjectName(s), OBJECT_SUFFIX) && !EndsWith(ObjectName(s), DIRECTORY_SUFFIX)
    ensures EndsWith(DirectoryName(s), DIRECTORY_SUFFIX) && !EndsWith(DirectoryName(s), OBJECT_SUFFIX)
    ensures DecodeSegment(ObjectName(s)[..|ObjectName(s)| - 2]) == s
    ensures DecodeSegment(DirectoryName(s)[..|DirectoryName(s)| - 2]) == s
  {
    hide DecodeSegment, EncodeSegment, EndsWith;
    SuffixesDiffer(EncodeSegment(s));
    DecodeEncoded(s);
  }

  /* ----- What is collected ----- */

  /** The object with these segments is a directory in the tree. */
  predicate HasObject(node: Node, segments: seq<Text>) {
    segments != [] && ObjectAt(node, segments).Some? && ObjectAt(node, segments).value.Dir?
  }

  lemma FindFirst(entries: seq<Entry>, name: Text)
    requires entries != []
    ensures Find(entries, name) == if entries[0].name == name then Some(entries[0].node) else Find(entries[1..], name)
  {
  }

  lemma {:induction false} FindInside(entries: seq<Entry>, name: Text)
    requires AllNamedWell(entries) && Find(entries, name).Some?
    ensures NamedWell(Entry(name, Find(entries, name).value))
  {
    hide NamedWell;
    if entries[0].name != name {
      FindInside(entries[1..], name);
    } else {
      assert entries[0] == Entry(name, Find(entries, name).value);
    }
  }

  /** How a key of one entry comes about: by the segment of the entry, and segments below it. */
  predicate FromEntry(e: Entry, segments: seq<Text>, base: Text, partial: Text, key: Text) {
    && AreSegments(segments) && e.node.Dir? && partial <= segments[0] && key == base + Path(segments)
    && (if |segments| == 1 then e.name == ObjectName(segments[0])
        else e.name == DirectoryName(segments[0]) && HasObject(e.node, segments[1..]))
  }

  lemma {:induction false} EntryKeysCome(e: Entry, base: Text, partial: Text, key: Text) returns (segments: seq<Text>)
    requires NamedWell(e) && key in KeysOfEntry(e, base, partial)
    ensures FromEntry(e, segments, base, partial, key)
    decreases e, 1
  {
    hide DecodeSegment, EncodeSegment, IsSegment, HasObject, EndsWith;
    var segment := DecodeSegment(e.name[..|e.name| - 2]);
    NameOfStem(e.name);
    if EndsWith(e.name, OBJECT_SUFFIX) {
      segments := [segment];
    } else {
      var below := KeysCome(e.node.entries, base + segment + [SLASH], [], key);
      BelowHere(e.node, below);
      segments := [segment] + below;
      PathBelow(base, segment, below);
    }
  }

  lemma PathBelow(base: Text, segment: Text, below: seq<Text>)
    requires below != []
    ensures ([segment] + below)[1..] == below
    ensures base + Path([segment] + below) == base + segment + [SLASH] + Path(below)
  {
    assert ([segment] + below)[1..] == below;
    assert base + segment + [SLASH] + Path(below) == base + (segment + [SLASH] + Path(below));
  }

  lemma BelowHere(node: Node, segments: seq<Text>)
    requires node.Dir? && segments != [] && HasObject(Dir(node.entries, None), segments)
    ensures HasObject(node, segments)
  {
  }

  /** Every collected key is the path of an object in the tree. */
  lemma {:induction false} KeysCome(entries: seq<Entry>, base: Text, partial: Text, key: Text)
    returns (segments: seq<Text>)
    requires AllNamedWell(entries) && key in KeysOfEntries(entries, base, partial)
    ensures AreSegments(segments) && HasObject(Dir(entries, None), segments)
    ensures partial <= segments[0] && key == base + Path(segments)
    decreases entries
  {
    hide KeysOfEntry, NamedWell, IsSegment, EncodeSegment;
    var e := entries[0];
    if key in KeysOfEntry(e, base, partial) {
      segments := EntryKeysCome(e, base, partial, key);
      FindFirst(entries, e.name);
    } else {
      segments := KeysCome(entries[1..], base, partial, key);
      OtherNames(entries, if |segments| == 1 then ObjectName(segments[0]) else DirectoryName(segments[0]));
    }
  }

  lemma OtherNames(entries: seq<Entry>, name: Text)
    requires entries != [] && AllNamedWell(entries) && Find(entries[1..], name).Some?
    ensures Find(entries, name) == Find(entries[1..], name)
  {
  }

  /** Every object in the tree is collected. */
  lemma {:induction false} ObjectsCollected(entries: seq<Entry>, base: Text, partial: Text, segments: seq<Text>)
    requires AllNamedWell(entries) && AreSegments(segments) && HasObject(Dir(entries, None), segments) && partial <= segments[0]
    ensures base + Path(segments) in KeysOfEntries(entries, base, partial)
    decreases |segments|, |entries|
  {
    hide KeysOfEntry, NamedWell, IsSegment, EncodeSegment;
    var e := entries[0];
    var name := if |segments| == 1 then ObjectName(segments[0]) else DirectoryName(segments[0]);
    FindFirst(entries, name);
    if e.name == name {
      assert Find(entries, name) == Some(e.node);
      FoundHere(entries, e.node, segments);
      EntryObjectsCollected(e, base, partial, segments);
    } else {
      assert HasObject(Dir(entries[1..], None), segments);
      ObjectsCollected(entries[1..], base, partial, segments);
    }
  }

  lemma FoundHere(entries: seq<Entry>, node: Node, segments: seq<Text>)
    requires HasObject(Dir(entries, None), segments)
    requires Find(entries, if |segments| == 1 then ObjectName(segments[0]) else DirectoryName(segments[0])) == Some(node)
    ensures node.Dir? && (|segments| > 1 ==> HasObject(node, segments[1..]))
  {
    if |segments| > 1 {
      assert ObjectAt(Dir(entries, None), segments) == ObjectAt(node, segments[1..]);
    }
  }

  lemma EntryObjectsCollected(e: Entry, base: Text, partial: Text, segments: seq<Text>)
    requires NamedWell(e) && FromEntry(e, segments, base, partial, base + Path(segments))
    ensures base + Path(segments) in KeysOfEntry(e, base, partial)
    decreases |segments|, 0
  {
    hide DecodeSegment, EncodeSegment, IsSegment, EndsWith;
    SegmentNames(segments[0]);
    if |segments| > 1 {
      assert HasObject(Dir(e.node.entries, None), segments[1..]);
      ObjectsCollected(e.node.entries, base + segments[0] + [SLASH], [], segments[1..]);
      assert base + segments[0] + [SLASH] + Path(segments[1..]) == base + Path(segments);
    }
  }

  /* ----- Each once ----- */

  predicate NoDuplicates(keys: seq<Text>) {
    forall i, j :: 0 <= i < j < |keys| ==> keys[i] != keys[j]
  }

  lemma ConcatNoDuplicates(a: seq<Text>, b: seq<Text>)
    requires NoDuplicates(a) && NoDuplicates(b) && forall key :: key in a ==> key !in b
    ensures NoDuplicates(a + b)
  {
    forall i, j | 0 <= i < j < |a + b|
      ensures (a + b)[i] != (a + b)[j]
    {
      if i < |a| && j >= |a| {
        assert a[i] in a && b[j - |a|] in b;
      }
    }
  }

  lemma PathsTell(base: Text, a: seq<Text>, b: seq<Text>)
    requires AreSegments(a) && AreSegments(b) && base + Path(a) == base + Path(b)
    ensures a == b
  {
    hide Path, Parts;
    assert Path(a) == (base + Path(a))[|base|..] == Path(b);
    SegmentsOfKey(a);
    SegmentsOfKey(b);
  }

  lemma {:induction false} EntryKeysOnce(e: Entry, base: Text, partial: Text)
    requires NamedWell(e)
    ensures NoDuplicates(KeysOfEntry(e, base, partial))
    decreases e, 1
  {
    hide DecodeSegment, EncodeSegment, IsSegment, IsSegmentName;
    if e.node.Dir? && EndsWith(e.name, DIRECTORY_SUFFIX) {
      KeysOnce(e.node.entries, base + DecodeSegment(e.name[..|e.name| - 2]) + [SLASH], []);
    }
  }

  /** No key is collected twice. */
  lemma {:induction false} KeysOnce(entries: seq<Entry>, base: Text, partial: Text)
    requires AllNamedWell(entries)
    ensures NoDuplicates(KeysOfEntries(entries, base, partial))
    decreases entries
  {
    hide KeysOfEntry, NamedWell, IsSegment, EncodeSegment;
    if entries != [] {
      var e := entries[0];
      EntryKeysOnce(e, base, partial);
      KeysOnce(entries[1..], base, partial);
      forall key | key in KeysOfEntry(e, base, partial)
        ensures key !in KeysOfEntries(entries[1..], base, partial)
      {
        OneEntryOnly(entries, base, partial, key);
      }
      ConcatNoDuplicates(KeysOfEntry(e, base, partial), KeysOfEntries(entries[1..], base, partial));
    }
  }

  lemma OneEntryOnly(entries: seq<Entry>, base: Text, partial: Text, key: Text)
    requires entries != [] && AllNamedWell(entries) && key in KeysOfEntry(entries[0], base, partial)
    ensures key !in KeysOfEntries(entries[1..], base, partial)
  {
    hide KeysOfEntry, KeysOfEntries, NamedWell, IsSegment, EncodeSegment, Path;
    if key in KeysOfEntries(entries[1..], base, partial) {
      var here := EntryKeysCome(entries[0], base, partial, key);
      var there := KeysCome(entries[1..], base, partial, key);
      PathsTell(base, here, there);
      assert false;
    }
  }
}
