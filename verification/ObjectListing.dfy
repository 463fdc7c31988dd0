/** packages/storage/src/local-object-store.ts: list, page by page. */
module ObjectListing {
  import opened Wrappers
  import opened Utf16
  import opened KeyOrder
  import opened ObjectKeys
  import opened ObjectTree

  /* ----- The keys under a prefix ----- */

  function Base(whole: seq<Text>): Text {
    if whole == [] then [] else Path(whole) + [SLASH]
  }

  /** What list collects for a prefix, in the order of the directory entries. */
  function Collected(root: Node, prefix: Text): seq<Text> {
    var parts := Parts(prefix);
    var whole, partial := parts[..|parts| - 1], parts[|parts| - 1];
    var directory := DirectoryAt(root, whole);
    if directory.None? then [] else CollectKeys(directory.value, Base(whole), partial)
  }

  lemma {:induction false} DirectoryHas(root: Node, whole: seq<Text>, segments: seq<Text>)
    requires segments != []
    ensures HasObject(root, whole + segments) <==>
            DirectoryAt(root, whole).Some? && HasObject(DirectoryAt(root, whole).value, segments)
    decreases |whole|
  {
    if whole == [] {
      assert whole + segments == segments;
    } else if root.Dir? {
      var child := Find(root.entries, DirectoryName(whole[0]));
      assert (whole + segments)[1..] == whole[1..] + segments;
      if child.Some? {
        DirectoryHas(child.value, whole[1..], segments);
      }
    }
  }

  lemma {:induction false} DirectoryNamedWell(root: Node, whole: seq<Text>)
    requires WellNamed(root) && DirectoryAt(root, whole).Some? && forall i :: 0 <= i < |whole| ==> IsSegment(whole[i])
    ensures WellNamed(DirectoryAt(root, whole).value)
    decreases |whole|
  {
    hide IsSegment, EncodeSegment, DecodeSegment;
    if whole != [] {
      FindInside(root.entries, DirectoryName(whole[0]));
      SegmentNames(whole[0]);
      DirectoryNamedWell(Find(root.entries, DirectoryName(whole[0])).value, whole[1..]);
    }
  }

  lemma {:induction false} PathAppend(whole: seq<Text>, segments: seq<Text>)
    requires segments != []
    ensures Path(whole + segments) == Base(whole) + Path(segments)
    decreases |whole|
  {
    if whole == [] {
      assert whole + segments == segments;
    } else {
      assert (whole + segments)[1..] == whole[1..] + segments;
      PathAppend(whole[1..], segments);
      if |whole| == 1 {
        assert whole[1..] == [];
      } else {
        assert whole[0] + [SLASH] + (Path(whole[1..]) + [SLASH] + Path(segments)) ==
               whole[0] + [SLASH] + Path(whole[1..]) + [SLASH] + Path(segments);
      }
    }
  }

  lemma CollectWhole(node: Node, base: Text, partial: Text, key: Text) returns (segments: seq<Text>)
    requires WellNamed(node) && key in CollectKeys(node, base, partial)
    ensures AreSegments(segments) && HasObject(node, segments) && partial <= segments[0] && key == base + Path(segments)
  {
    hide AllNamedWell, KeysOfEntries, AreSegments, Path;
    segments := KeysCome(node.entries, base, partial, key);
    BelowHere(node, segments);
  }

  lemma WholeCollected(node: Node, base: Text, partial: Text, segments: seq<Text>)
    requires WellNamed(node) && AreSegments(segments) && HasObject(node, segments) && partial <= segments[0]
    ensures base + Path(segments) in CollectKeys(node, base, partial)
  {
    assert HasObject(Dir(node.entries, None), segments);
    ObjectsCollected(node.entries, base, partial, segments);
  }

  /** The parts of a prefix: whole segments, and the start of one. */
  lemma PrefixParts(prefix: Text)
    requires IsPrefix(prefix)
    ensures var parts := Parts(prefix);
            var whole, partial := parts[..|parts| - 1], parts[|parts| - 1];
            && (forall i :: 0 <= i < |whole| ==> IsSegment(whole[i]) && NoSlash(whole[i]))
            && NoSlash(partial) && Path(whole + [partial]) == prefix
  {
    hide IsSegment, NoSlash, Path, Parts;
    PathOfParts(prefix);
    var parts := Parts(prefix);
    var whole := parts[..|parts| - 1];
    assert parts == whole + [parts[|parts| - 1]];
    forall i | 0 <= i < |whole|
      ensures IsSegment(whole[i]) && NoSlash(whole[i])
    {
      assert whole[i] == parts[i];
    }
  }

  lemma SegmentsNoSlash(segments: seq<Text>)
    requires AreSegments(segments)
    ensures forall i :: 0 <= i < |segments| ==> NoSlash(segments[i])
  {
    forall i | 0 <= i < |segments|
      ensures NoSlash(segments[i])
    {
      SegmentHasNoSlash(segments[i]);
    }
  }

  /** The tree walk finds exactly the keys that begin with the text of the prefix. */
  lemma CollectedExactly(root: Node, prefix: Text, key: Text)
    requires WellNamed(root) && IsPrefix(prefix)
    ensures key in Collected(root, prefix) <==>
            exists segments :: AreSegments(segments) && HasObject(root, segments) && key == Path(segments) && prefix <= key
  {
    hide IsSegment, Path, Parts, CollectKeys, HasObject, IsPrefix, WellNamed, DirectoryAt;
    PrefixParts(prefix);
    var parts := Parts(prefix);
    var whole, partial := parts[..|parts| - 1], parts[|parts| - 1];
    if key in Collected(root, prefix) {
      var directory := DirectoryAt(root, whole).value;
      DirectoryNamedWell(root, whole);
      var below := CollectWhole(directory, Base(whole), partial, key);
      var segments := whole + below;
      DirectoryHas(root, whole, below);
      PathAppend(whole, below);
      assert AreSegments(segments);
      SegmentsNoSlash(segments);
      PrefixBySegments(segments, whole, partial);
      assert segments[..|whole|] == whole && segments[|whole|] == below[0];
      assert Continues(segments, whole, partial);
    }
    if exists segments :: AreSegments(segments) && HasObject(root, segments) && key == Path(segments) && prefix <= key {
      var segments :| AreSegments(segments) && HasObject(root, segments) && key == Path(segments) && prefix <= key;
      SegmentsNoSlash(segments);
      PrefixBySegments(segments, whole, partial);
      var below := segments[|whole|..];
      assert segments == whole + below;
      DirectoryHas(root, whole, below);
      DirectoryNamedWell(root, whole);
      PathAppend(whole, below);
      WholeCollected(DirectoryAt(root, whole).value, Base(whole), partial, below);
    }
  }

  lemma CollectedOnce(root: Node, prefix: Text)
    requires WellNamed(root) && IsPrefix(prefix)
    ensures NoDuplicates(Collected(root, prefix))
  {
    hide IsSegment, Path, Parts, IsPrefix, WellNamed, DirectoryAt;
    PrefixParts(prefix);
    var parts := Parts(prefix);
    var whole, partial := parts[..|parts| - 1], parts[|parts| - 1];
    if DirectoryAt(root, whole).Some? {
      DirectoryNamedWell(root, whole);
      WholeOnce(DirectoryAt(root, whole).value, Base(whole), partial);
    }
  }

  lemma WholeOnce(node: Node, base: Text, partial: Text)
    requires WellNamed(node)
    ensures NoDuplicates(CollectKeys(node, base, partial))
  {
    if node.Dir? {
      KeysOnce(node.entries, base, partial);
    }
  }

  /* ----- Sorting and filtering ----- */

  function Insert(key: Text, keys: seq<Text>): seq<Text> {
    if keys == [] || Less(key, keys[0]) then [key] + keys else [keys[0]] + Insert(key, keys[1..])
  }

  function Sort(keys: seq<Text>): seq<Text> {
    if keys == [] then [] else Insert(keys[0], Sort(keys[1..]))
  }

  /** Keys after a cursor. */
  function Later(keys: seq<Text>, after: Option<Text>): seq<Text> {
    if keys == [] then []
    else if after.None? || Less(after.value, keys[0]) then [keys[0]] + Later(keys[1..], after)
    else Later(keys[1..], after)
  }

  lemma {:induction false} InsertHolds(key: Text, keys: seq<Text>)
    ensures forall k :: k in Insert(key, keys) <==> k == key || k in keys
  {
    if keys != [] && !Less(key, keys[0]) {
      InsertHolds(key, keys[1..]);
      assert keys == [keys[0]] + keys[1..];
    }
  }

  lemma InFront(key: Text, keys: seq<Text>)
    requires Ascending(keys) && forall k :: k in keys ==> Less(key, k)
    ensures Ascending([key] + keys)
  {
    var all := [key] + keys;
    forall i, j | 0 <= i < j < |all|
      ensures Less(all[i], all[j])
    {
      assert all[j] == keys[j - 1] && keys[j - 1] in keys;
      if i > 0 {
        assert all[i] == keys[i - 1];
      }
    }
  }

  lemma FirstBeforeRest(keys: seq<Text>)
    requires Ascending(keys) && keys != []
    ensures Ascending(keys[1..]) && forall k :: k in keys[1..] ==> Less(keys[0], k)
  {
    var rest := keys[1..];
    forall i, j | 0 <= i < j < |rest|
      ensures Less(rest[i], rest[j])
    {
      assert Less(keys[i + 1], keys[j + 1]);
    }
    forall k | k in rest
      ensures Less(keys[0], k)
    {
      var i :| 0 <= i < |rest| && rest[i] == k;
      assert Less(keys[0], keys[i + 1]);
    }
  }

  lemma {:induction false} InsertSorts(key: Text, keys: seq<Text>)
    requires Ascending(keys) && key !in keys
    ensures Ascending(Insert(key, keys))
  {
    hide Less, Ascending;
    if keys == [] {
      InFront(key, keys) by { OneAscends(); }
    } else {
      FirstBeforeRest(keys);
      if Less(key, keys[0]) {
        forall k | k in keys
          ensures Less(key, k)
        {
          if k != keys[0] {
            assert keys == [keys[0]] + keys[1..];
            LessTransitive(key, keys[0], k);
          }
        }
        InFront(key, keys);
      } else {
        LessTotal(key, keys[0]);
        InsertSorts(key, keys[1..]);
        InsertHolds(key, keys[1..]);
        InFront(keys[0], Insert(key, keys[1..]));
      }
    }
  }

  lemma OneAscends()
    ensures Ascending([])
  {
  }

  lemma {:induction false} SortSorts(keys: seq<Text>)
    requires NoDuplicates(keys)
    ensures Ascending(Sort(keys)) && forall k :: k in Sort(keys) <==> k in keys
  {
    hide Less;
    if keys != [] {
      SortSorts(keys[1..]);
      assert keys == [keys[0]] + keys[1..];
      assert keys[0] !in keys[1..];
      InsertSorts(keys[0], Sort(keys[1..]));
      InsertHolds(keys[0], Sort(keys[1..]));
    }
  }

  lemma {:induction false} LaterHolds(keys: seq<Text>, after: Option<Text>)
    ensures forall k :: k in Later(keys, after) <==> k in keys && (after.None? || Less(after.value, k))
    ensures NoDuplicates(keys) ==> NoDuplicates(Later(keys, after))
  {
    if keys != [] {
      LaterHolds(keys[1..], after);
      assert keys == [keys[0]] + keys[1..];
      if NoDuplicates(keys) && (after.None? || Less(after.value, keys[0])) {
        assert keys[0] !in keys[1..];
        ConcatNoDuplicates([keys[0]], Later(keys[1..], after));
      }
    }
  }

  lemma {:induction false} LaterOfAscending(keys: seq<Text>, i: nat)
    requires Ascending(keys) && i < |keys|
    ensures Later(keys, Some(keys[i])) == keys[i + 1..]
    ensures Later(keys, None) == keys
    decreases |keys|
  {
    hide Less;
    FirstBeforeRest(keys);
    LessIrreflexive(keys[0]);
    assert keys == [keys[0]] + keys[1..];
    LaterNone(keys);
    if i == 0 {
      AllLater(keys[1..], keys[0]);
    } else {
      LaterOfAscending(keys[1..], i - 1);
      assert keys[1..][i - 1] == keys[i] && keys[1..][i..] == keys[i + 1..];
      assert !Less(keys[i], keys[0]) by {
        if Less(keys[i], keys[0]) {
          LessTransitive(keys[0], keys[i], keys[0]);
        }
      }
    }
  }

  lemma {:induction false} LaterNone(keys: seq<Text>)
    ensures Later(keys, None) == keys
  {
    if keys != [] {
      LaterNone(keys[1..]);
      assert keys == [keys[0]] + keys[1..];
    }
  }

  lemma {:induction false} AllLater(keys: seq<Text>, after: Text)
    requires forall k :: k in keys ==> Less(after, k)
    ensures Later(keys, Some(after)) == keys
  {
    if keys != [] {
      AllLater(keys[1..], after);
      assert keys == [keys[0]] + keys[1..];
    }
  }

  /** It does not matter whether the keys are filtered before they are sorted. */
  lemma SortLater(keys: seq<Text>, after: Option<Text>)
    requires NoDuplicates(keys)
    ensures Sort(Later(keys, after)) == Later(Sort(keys), after)
  {
    hide Less, Sort, Later, Ascending;
    LaterHolds(keys, after);
    SortSorts(keys);
    SortSorts(Later(keys, after));
    LaterHolds(Sort(keys), after);
    LaterAscends(Sort(keys), after);
    AscendingIsUnique(Sort(Later(keys, after)), Later(Sort(keys), after));
  }

  lemma {:induction false} LaterAscends(keys: seq<Text>, after: Option<Text>)
    requires Ascending(keys)
    ensures Ascending(Later(keys, after))
  {
    hide Less, Ascending;
    if keys == [] {
      OneAscends();
    } else {
      FirstBeforeRest(keys);
      LaterAscends(keys[1..], after);
      LaterHolds(keys[1..], after);
      InFront(keys[0], Later(keys[1..], after));
    }
  }

  /* ----- Pages ----- */

  datatype Listed = Listed(key: Text, head: Head)

  /** A page of a listing; the cursor stands for its last key. */
  datatype ListResult = Page(objects: seq<Listed>, cursor: Option<Text>) | InvalidInput

  /** The objects of some keys: those whose head is still there. */
  function Live(root: Node, keys: seq<Text>): seq<Listed> {
    if keys == [] then []
    else
      var last := keys[|keys| - 1];
      var head := HeadAt(root, Parts(last));
      Live(root, keys[..|keys| - 1]) + if head.Some? then [Listed(last, head.value)] else []
  }

  /** The loop over sorted keys from `index`, with `objects` found so far. */
  function PageFrom(root: Node, keys: seq<Text>, index: nat, objects: seq<Listed>, limit: nat): ListResult
    requires index <= |keys|
    decreases |keys| - index
  {
    if index < |keys| && |objects| < limit then
      var key := keys[index];
      var head := HeadAt(root, Parts(key));
      PageFrom(root, keys, index + 1, if head.Some? then objects + [Listed(key, head.value)] else objects, limit)
    else Page(objects, if index < |keys| && objects != [] then Some(objects[|objects| - 1].key) else None)
  }

  const MAX_LIST_LIMIT := 1000

  predicate IsListInput(prefix: Text, cursor: Option<Text>, limit: int) {
    IsPrefix(prefix) && 1 <= limit <= MAX_LIST_LIMIT && (cursor.Some? ==> IsKey(cursor.value))
  }

  /** list({prefix, cursor, limit}) */
  function ListPage(root: Node, prefix: Text, cursor: Option<Text>, limit: int): ListResult {
    if !IsListInput(prefix, cursor, limit) then InvalidInput
    else PageFrom(root, Sort(Later(Collected(root, prefix), cursor)), 0, [], limit)
  }

  /** A page holds the live objects of the first `n` keys, and its cursor is the last of these keys. */
  lemma {:induction false} PageHolds(root: Node, keys: seq<Text>, index: nat, objects: seq<Listed>, limit: nat)
    returns (n: nat)
    requires index <= |keys| && limit >= 1 && objects == Live(root, keys[..index])
    requires |objects| == limit ==> index > 0 && objects[|objects| - 1].key == keys[index - 1]
    requires |objects| <= limit
    ensures n <= |keys|
    ensures var page := PageFrom(root, keys, index, objects, limit);
            && page.Page? && page.objects == Live(root, keys[..n]) && |page.objects| <= limit
            && (page.cursor.None? ==> n == |keys|)
            && (page.cursor.Some? ==> 1 <= n && page.cursor.value == keys[n - 1])
    decreases |keys| - index
  {
    if index < |keys| && |objects| < limit {
      var key := keys[index];
      var head := HeadAt(root, Parts(key));
      assert keys[..index + 1][..index] == keys[..index];
      n := PageHolds(root, keys, index + 1, if head.Some? then objects + [Listed(key, head.value)] else objects, limit);
    } else {
      n := index;
    }
  }

  lemma {:induction false} LiveAppend(root: Node, a: seq<Text>, b: seq<Text>)
    ensures Live(root, a + b) == Live(root, a) + Live(root, b)
  {
    if b == [] {
      assert a + b == a;
    } else {
      var front := b[..|b| - 1];
      LiveAppend(root, a, front);
      assert (a + b)[..|a + b| - 1] == a + front;
    }
  }

  lemma {:induction false} LaterIsSuffix(keys: seq<Text>, after: Option<Text>) returns (i: nat)
    requires Ascending(keys)
    ensures i <= |keys| && Later(keys, after) == keys[i..]
    decreases |keys|
  {
    hide Less;
    if keys == [] {
      i := 0;
    } else if after.None? || Less(after.value, keys[0]) {
      i := 0;
      FirstBeforeRest(keys);
      LaterNone(keys);
      if after.Some? {
        forall k | k in keys
          ensures Less(after.value, k)
        {
          if k != keys[0] {
            assert keys == [keys[0]] + keys[1..];
            LessTransitive(after.value, keys[0], k);
          }
        }
        AllLater(keys, after.value);
      }
    } else {
      FirstBeforeRest(keys);
      var rest := LaterIsSuffix(keys[1..], after);
      i := rest + 1;
    }
  }

  /** A store's tree: well named, with keys within the size limit. */
  ghost predicate StoreOk(root: Node) {
    WellNamed(root) && forall segments :: AreSegments(segments) && HasObject(root, segments) ==> |Path(segments)| <= MAX_KEY_BYTES
  }

  function Keys(root: Node, prefix: Text): seq<Text> {
    Sort(Collected(root, prefix))
  }

  lemma KeysSorted(root: Node, prefix: Text)
    requires WellNamed(root) && IsPrefix(prefix)
    ensures Ascending(Keys(root, prefix)) && forall k :: k in Keys(root, prefix) <==> k in Collected(root, prefix)
  {
    hide Sort, Collected;
    CollectedOnce(root, prefix);
    SortSorts(Collected(root, prefix));
  }

  lemma KeyIsKey(root: Node, prefix: Text, key: Text)
    requires StoreOk(root) && IsPrefix(prefix) && key in Keys(root, prefix)
    ensures IsKey(key)
  {
    hide Sort, Collected, AreSegments, HasObject, Path, Parts, IsPrefix, WellNamed;
    KeysSorted(root, prefix);
    CollectedExactly(root, prefix, key);
    var segments :| AreSegments(segments) && HasObject(root, segments) && key == Path(segments) && prefix <= key;
    SegmentsOfKey(segments);
  }

  /** One page: the live objects of `n` keys from the `i`th, and a cursor when keys are left. */
  lemma PageIs(root: Node, prefix: Text, cursor: Option<Text>, limit: int, i: nat) returns (n: nat)
    requires StoreOk(root) && IsListInput(prefix, cursor, limit)
    requires i <= |Keys(root, prefix)| && Later(Keys(root, prefix), cursor) == Keys(root, prefix)[i..]
    ensures var keys := Keys(root, prefix);
            var page := ListPage(root, prefix, cursor, limit);
            && page.Page? && i + n <= |keys| && page.objects == Live(root, keys[i..i + n]) && |page.objects| <= limit
            && (page.cursor.None? ==> i + n == |keys|)
            && (page.cursor.Some? ==>
                  n >= 1 && IsKey(page.cursor.value) && Later(keys, page.cursor) == keys[i + n..])
  {
    hide Keys, Later, StoreOk, IsPrefix, IsKey, PageFrom, Live, ListPage;
    var keys := Keys(root, prefix);
    PageOfLater(root, prefix, cursor, limit);
    var rest := keys[i..];
    LiveNothing(root, rest);
    n := PageHolds(root, rest, 0, [], limit);
    Slice(keys, i, n);
    var page := ListPage(root, prefix, cursor, limit);
    if page.cursor.Some? {
      var last := i + n - 1;
      KeysAscend(root, prefix);
      LaterOfAscending(keys, last);
      assert keys[last] in keys;
      KeyIsKey(root, prefix, keys[last]);
    }
  }

  lemma Slice(keys: seq<Text>, i: nat, n: nat)
    requires i + n <= |keys|
    ensures keys[i..][..n] == keys[i..i + n] && (n > 0 ==> keys[i..][n - 1] == keys[i + n - 1])
  {
  }

  lemma PageOfLater(root: Node, prefix: Text, cursor: Option<Text>, limit: int)
    requires StoreOk(root) && IsListInput(prefix, cursor, limit)
    ensures ListPage(root, prefix, cursor, limit) == PageFrom(root, Later(Keys(root, prefix), cursor), 0, [], limit)
  {
    hide Sort, Later, Collected, WellNamed, PageFrom, IsPrefix, IsKey;
    CollectedOnce(root, prefix);
    SortLater(Collected(root, prefix), cursor);
  }

  lemma LiveNothing(root: Node, keys: seq<Text>)
    ensures Live(root, keys[..0]) == []
  {
  }

  /** What following the cursors gives, one page after the other. */
  ghost function AllPages(root: Node, prefix: Text, cursor: Option<Text>, limit: int): seq<Listed>
    requires StoreOk(root) && IsListInput(prefix, cursor, limit)
    decreases |Later(Keys(root, prefix), cursor)|
  {
    var page := ListPage(root, prefix, cursor, limit);
    PageProgress(root, prefix, cursor, limit);
    if page.cursor.None? then page.objects
    else page.objects + AllPages(root, prefix, page.cursor, limit)
  }

  /** A cursor is accepted, and fewer keys come after it: following cursors ends. */
  lemma PageProgress(root: Node, prefix: Text, cursor: Option<Text>, limit: int)
    requires StoreOk(root) && IsListInput(prefix, cursor, limit)
    ensures var page := ListPage(root, prefix, cursor, limit);
            && page.Page?
            && (page.cursor.Some? ==>
                  && IsKey(page.cursor.value)
                  && |Later(Keys(root, prefix), page.cursor)| < |Later(Keys(root, prefix), cursor)|)
  {
    hide Keys, Later, StoreOk, IsPrefix, IsKey, ListPage;
    KeysAscend(root, prefix);
    var i := LaterIsSuffix(Keys(root, prefix), cursor);
    var n := PageIs(root, prefix, cursor, limit, i);
  }

  lemma KeysAscend(root: Node, prefix: Text)
    requires StoreOk(root) && IsPrefix(prefix)
    ensures Ascending(Keys(root, prefix))
  {
    KeysSorted(root, prefix);
  }

  lemma {:induction false} PagesFrom(root: Node, prefix: Text, cursor: Option<Text>, limit: int, i: nat)
    requires StoreOk(root) && IsListInput(prefix, cursor, limit)
    requires i <= |Keys(root, prefix)| && Later(Keys(root, prefix), cursor) == Keys(root, prefix)[i..]
    ensures AllPages(root, prefix, cursor, limit) == Live(root, Keys(root, prefix)[i..])
    decreases |Keys(root, prefix)| - i
  {
    hide Keys, Later, StoreOk, IsPrefix, IsKey, ListPage, Live;
    var keys := Keys(root, prefix);
    PageProgress(root, prefix, cursor, limit);
    var n := PageIs(root, prefix, cursor, limit, i);
    var page := ListPage(root, prefix, cursor, limit);
    if page.cursor.Some? {
      PagesFrom(root, prefix, page.cursor, limit, i + n);
      LiveAppend(root, keys[i..i + n], keys[i + n..]);
      assert keys[i..] == keys[i..i + n] + keys[i + n..];
    } else {
      assert keys[i..] == keys[i..i + n];
    }
  }

  lemma {:induction false} LiveHolds(root: Node, keys: seq<Text>, o: Listed)
    ensures o in Live(root, keys) <==> o.key in keys && HeadAt(root, Parts(o.key)) == Some(o.head)
  {
    hide HeadAt, Parts;
    if keys != [] {
      LiveHolds(root, keys[..|keys| - 1], o);
      assert keys == keys[..|keys| - 1] + [keys[|keys| - 1]];
    }
  }

  predicate InKeyOrder(objects: seq<Listed>) {
    forall i, j :: 0 <= i < j < |objects| ==> Less(objects[i].key, objects[j].key)
  }

  lemma {:induction false} LiveAscends(root: Node, keys: seq<Text>)
    requires Ascending(keys)
    ensures InKeyOrder(Live(root, keys))
  {
    hide HeadAt, Parts, Less;
    if keys != [] {
      var front, last := keys[..|keys| - 1], keys[|keys| - 1];
      LiveAscends(root, front);
      forall i | 0 <= i < |Live(root, front)|
        ensures Less(Live(root, front)[i].key, last)
      {
        LiveHolds(root, front, Live(root, front)[i]);
        var k :| 0 <= k < |front| && front[k] == Live(root, front)[i].key;
        assert Less(keys[k], keys[|keys| - 1]);
      }
    }
  }

  /**
   * On a store that does not change, the pages together list every object whose key begins with the
   * prefix, and no other, once and in the order of the keys, whatever the page size.
   */
  lemma PagesListEverything(root: Node, prefix: Text, limit: int)
    requires StoreOk(root) && IsListInput(prefix, None, limit)
    ensures var all := AllPages(root, prefix, None, limit);
            && InKeyOrder(all)
            && forall o :: o in all <==> IsKey(o.key) && prefix <= o.key && HeadAt(root, Parts(o.key)) == Some(o.head)
  {
    hide Keys, Later, StoreOk, IsPrefix, IsKey, Live, AllPages, HeadAt, Parts, InKeyOrder;
    KeysAscend(root, prefix);
    LaterNone(Keys(root, prefix));
    PagesFrom(root, prefix, None, limit, 0);
    var keys := Keys(root, prefix);
    assert keys[0..] == keys;
    LiveAscends(root, keys);
    forall o
      ensures o in Live(root, keys) <==> IsKey(o.key) && prefix <= o.key && HeadAt(root, Parts(o.key)) == Some(o.head)
    {
      LiveHolds(root, keys, o);
      if HeadAt(root, Parts(o.key)) == Some(o.head) {
        KeyListed(root, prefix, o);
      }
    }
  }

  lemma KeyListed(root: Node, prefix: Text, o: Listed)
    requires StoreOk(root) && IsPrefix(prefix) && HeadAt(root, Parts(o.key)) == Some(o.head)
    ensures o.key in Keys(root, prefix) <==> IsKey(o.key) && prefix <= o.key
  {
    hide Sort, Collected, IsPrefix, WellNamed, Path, Parts, ObjectAt;
    KeysSorted(root, prefix);
    CollectedExactly(root, prefix, o.key);
    if o.key in Keys(root, prefix) {
      KeyIsKey(root, prefix, o.key);
    }
    if IsKey(o.key) && prefix <= o.key {
      PathOfParts(o.key);
      assert HasObject(root, Parts(o.key));
    }
  }
}
