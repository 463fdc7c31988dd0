/** packages/storage/src/keys.ts: which texts are keys, and which are prefixes of a listing. */
module ObjectKeyTexts {
  import opened Wrappers
  import opened Utf16
  import opened ObjectKeys
  import opened ObjectTree
  import opened ObjectListing

  predicate IsAllowed(u: CodeUnit) {
    || 'A' as int <= u <= 'Z' as int || 'a' as int <= u <= 'z' as int || '0' as int <= u <= '9' as int
    || u == '.' as int || u == '_' as int || u == '~' as int || u == '-' as int
  }

  /** Something other than one or two dots, of allowed units. */
  ghost predicate IsName(s: Text) {
    && s != [] && (|s| <= 2 ==> exists k :: 0 <= k < |s| && s[k] != '.' as int)
    && forall k :: 0 <= k < |s| ==> IsAllowed(s[k])
  }

  /** Names with a slash between any two. */
  function Slashed(names: seq<Text>): Text
    requires names != []
  {
    if |names| == 1 then names[0] else names[0] + ['/' as int] + Slashed(names[1..])
  }

  ghost predicate AreNames(names: seq<Text>) {
    names != [] && forall i :: 0 <= i < |names| ==> IsName(names[i])
  }

  /** The text is names with slashes between them, and perhaps one after the last. */
  ghost predicate Spells(text: Text, names: seq<Text>, slash: bool) {
    AreNames(names) && text == Slashed(names) + if slash then ['/' as int] else []
  }

  lemma NamesAre(s: Text)
    ensures IsSegment(s) <==> IsName(s)
  {
    if |s| == 1 {
      assert s == [s[0]];
    } else if |s| == 2 {
      assert s == [s[0], s[1]];
    }
    assert forall u: CodeUnit :: IsKeyUnit(u) <==> IsAllowed(u);
  }

  lemma AllNamesAre(names: seq<Text>)
    ensures AreSegments(names) <==> AreNames(names)
  {
    hide IsSegment, IsName;
    forall i | 0 <= i < |names|
      ensures IsSegment(names[i]) <==> IsName(names[i])
    {
      NamesAre(names[i]);
    }
  }

  lemma {:induction false} SlashedIsPath(names: seq<Text>)
    requires names != []
    ensures Slashed(names) == Path(names)
  {
    if |names| > 1 {
      SlashedIsPath(names[1..]);
    }
  }

  /** A text is a key exactly when it has at most 1024 units and is names with slashes between them. */
  lemma KeysExactly(text: Text)
    ensures IsKey(text) <==> |text| <= 1024 && exists names :: Spells(text, names, false)
  {
    hide AreSegments, AreNames, Path, Slashed;
    if IsKey(text) {
      var names := Parts(text);
      PathOfParts(text);
      SlashedIsPath(names);
      AllNamesAre(names);
      assert Spells(text, names, false);
    }
    if names :| Spells(text, names, false) {
      AllNamesAre(names);
      NamesNotEmpty(names);
      SlashedIsPath(names);
      SegmentsOfKey(names);
      assert text == Slashed(names);
    }
  }

  lemma NamesNotEmpty(names: seq<Text>)
    requires AreNames(names)
    ensures names != []
  {
  }

  lemma {:induction false} PartsWithSlash(text: Text)
    ensures Parts(text + [SLASH]) == Parts(text) + [[]]
  {
    if text == [] {
      assert [] + [SLASH] == [SLASH] && [SLASH][1..] == [];
    } else {
      PartsWithSlash(text[1..]);
      assert (text + [SLASH])[1..] == text[1..] + [SLASH];
      var rest := Parts(text[1..]);
      assert (rest + [[]])[1..] == rest[1..] + [[]];
    }
  }

  /** The last part is empty when the text is empty or ends with a slash. */
  lemma {:induction false} LastPart(text: Text)
    ensures Parts(text)[|Parts(text)| - 1] == [] <==> text == [] || text[|text| - 1] == SLASH
  {
    if text != [] {
      LastPart(text[1..]);
    }
  }

  /** A text is a prefix exactly when it has at most 1024 units and is names with slashes between, and perhaps after, them. */
  lemma PrefixesExactly(text: Text)
    ensures IsPrefix(text) <==> |text| <= 1024 && exists names, slash :: Spells(text, names, slash)
  {
    hide AreSegments, AreNames, Path, Slashed, Parts;
    if |text| <= 1024 {
      if AreSegments(Parts(text)) {
        KeysExactly(text);
        var names :| Spells(text, names, false);
      } else if IsPrefix(text) {
        var parts := Parts(text);
        LastPart(text);
        NoParts();
        var before := text[..|text| - 1];
        PartsWithSlash(before);
        assert before + [SLASH] == text && Parts(before) == parts[..|parts| - 1];
        KeysExactly(before);
        var names :| Spells(before, names, false);
        assert Spells(text, names, true);
      }
      if names, slash :| Spells(text, names, slash) {
        SpelledIsPrefix(text, names, slash);
      }
    }
  }

  lemma NoParts()
    ensures Parts([]) == [[]]
  {
  }

  lemma SpelledIsPrefix(text: Text, names: seq<Text>, slash: bool)
    requires Spells(text, names, slash) && |text| <= 1024
    ensures IsPrefix(text)
  {
    hide AreSegments, AreNames, Path, Slashed, Parts;
    NamesNotEmpty(names);
    AllNamesAre(names);
    SlashedIsPath(names);
    SegmentsOfKey(names);
    if slash {
      PartsWithSlash(Slashed(names));
      assert (names + [[]])[..|names|] == names;
    } else {
      assert text == Slashed(names);
    }
  }

  /** A listing is refused exactly when its prefix or cursor is none, or its limit is not from 1 to 1000. */
  lemma ListingsExactly(root: Node, prefix: Text, cursor: Option<Text>, limit: int)
    ensures ListPage(root, prefix, cursor, limit) == InvalidInput <==>
            || |prefix| > 1024 || (forall names, slash :: !Spells(prefix, names, slash))
            || (cursor.Some? && (|cursor.value| > 1024 || forall names :: !Spells(cursor.value, names, false)))
            || limit < 1 || limit > 1000
  {
    hide Spells, Collected, Later, Sort, IsKey, IsPrefix;
    PrefixesExactly(prefix);
    if cursor.Some? {
      KeysExactly(cursor.value);
    }
    if IsListInput(prefix, cursor, limit) {
      PageIsPage(root, Sort(Later(Collected(root, prefix), cursor)), 0, [], limit);
    }
  }

  lemma {:induction false} PageIsPage(root: Node, keys: seq<Text>, index: nat, objects: seq<Listed>, limit: nat)
    requires index <= |keys|
    ensures PageFrom(root, keys, index, objects, limit).Page?
    decreases |keys| - index
  {
    hide Path, Parts, Sort;
    if index < |keys| && |objects| < limit {
      var head := HeadAt(root, Parts(keys[index]));
      PageIsPage(root, keys, index + 1, if head.Some? then objects + [Listed(keys[index], head.value)] else objects, limit);
    }
  }

  /* ----- File names ----- */

  /** Each capital becomes a caret and its small letter. */
  function Spelt(segment: Text): Text {
    if segment == [] then []
    else
      (if 'A' as int <= segment[0] <= 'Z' as int then ['^' as int, segment[0] + 32] else [segment[0]]) + Spelt(segment[1..])
  }

  lemma {:induction false} SpeltIs(segment: Text)
    ensures EncodeSegment(segment) == Spelt(segment)
  {
    if segment != [] {
      SpeltIs(segment[1..]);
    }
  }

  /** The names of the directories that stand for a segment. */
  lemma FileNamesExactly(segment: Text)
    ensures ObjectName(segment) == Spelt(segment) + ['.' as int, 'o' as int]
    ensures DirectoryName(segment) == Spelt(segment) + ['.' as int, 'd' as int]
  {
    SpeltIs(segment);
  }
}
