/** packages/storage/src/keys.ts and the segment names of packages/storage/src/local-object-store.ts. */
module ObjectKeys {
  import opened Utf16

  const SLASH: CodeUnit := 0x2F
  const DOT: CodeUnit := 0x2E
  const CARET: CodeUnit := 0x5E

  predicate IsUpper(u: CodeUnit) {
    0x41 <= u <= 0x5A
  }

  predicate IsLower(u: CodeUnit) {
    0x61 <= u <= 0x7A
  }

  /** [A-Za-z0-9._~-] */
  predicate IsKeyUnit(u: CodeUnit) {
    IsUpper(u) || IsLower(u) || 0x30 <= u <= 0x39 || u == DOT || u == 0x5F || u == 0x7E || u == 0x2D
  }

  /* ----- Keys and prefixes ----- */

  const MAX_KEY_BYTES := 1024

  /** A part of a key: not empty, and neither `.` nor `..`. */
  predicate IsSegment(s: Text) {
    s != [] && s != [DOT] && s != [DOT, DOT] && forall i :: 0 <= i < |s| ==> IsKeyUnit(s[i])
  }

  predicate AreSegments(parts: seq<Text>) {
    parts != [] && forall i :: 0 <= i < |parts| ==> IsSegment(parts[i])
  }

  /** split("/") */
  function Parts(text: Text): (parts: seq<Text>)
    ensures parts != []
  {
    if text == [] then [[]]
    else
      var rest := Parts(text[1..]);
      if text[0] == SLASH then [[]] + rest else [[text[0]] + rest[0]] + rest[1..]
  }

  /** join("/") */
  function Path(parts: seq<Text>): Text {
    if parts == [] then [] else if |parts| == 1 then parts[0] else parts[0] + [SLASH] + Path(parts[1..])
  }

  predicate IsKey(text: Text) {
    AreSegments(Parts(text)) && |text| <= MAX_KEY_BYTES
  }

  /** A prefix is a key, or a key and a slash. */
  predicate IsPrefix(text: Text) {
    && |text| <= MAX_KEY_BYTES
    && var parts := Parts(text);
    AreSegments(parts) || (|parts| > 1 && parts[|parts| - 1] == [] && AreSegments(parts[..|parts| - 1]))
  }

  predicate NoSlash(s: Text) {
    forall i :: 0 <= i < |s| ==> s[i] != SLASH
  }

  lemma SegmentHasNoSlash(s: Text)
    requires IsSegment(s)
    ensures NoSlash(s)
  {
  }

  lemma {:induction false} PartsOne(s: Text)
    requires NoSlash(s)
    ensures Parts(s) == [s]
  {
    if s != [] {
      PartsOne(s[1..]);
      assert s == [s[0]] + s[1..];
    }
  }

  lemma {:induction false} PartsFirst(s: Text, rest: Text)
    requires NoSlash(s)
    ensures Parts(s + ([SLASH] + rest)) == [s] + Parts(rest)
  {
    var whole := s + ([SLASH] + rest);
    if s == [] {
      assert whole == [SLASH] + rest && ([SLASH] + rest)[1..] == rest;
    } else {
      PartsFirst(s[1..], rest);
      assert whole[1..] == s[1..] + ([SLASH] + rest);
      assert s == [s[0]] + s[1..];
      assert ([s[1..]] + Parts(rest))[1..] == Parts(rest);
    }
  }

  lemma {:induction false} PartsOfPath(parts: seq<Text>)
    requires parts != [] && forall i :: 0 <= i < |parts| ==> NoSlash(parts[i])
    ensures Parts(Path(parts)) == parts
  {
    if |parts| == 1 {
      PartsOne(parts[0]);
    } else {
      PartsFirst(parts[0], Path(parts[1..]));
      PartsOfPath(parts[1..]);
      assert parts[0] + [SLASH] + Path(parts[1..]) == parts[0] + ([SLASH] + Path(parts[1..]));
    }
  }

  lemma {:induction false} PathOfParts(text: Text)
    ensures Path(Parts(text)) == text
    ensures forall i :: 0 <= i < |Parts(text)| ==> NoSlash(Parts(text)[i])
  {
    if text != [] {
      PathOfParts(text[1..]);
      var rest := Parts(text[1..]);
      assert text == [text[0]] + text[1..];
      if text[0] == SLASH {
        assert ([[]] + rest)[1..] == rest;
        assert [] + [SLASH] + Path(rest) == [SLASH] + Path(rest);
      } else {
        var parts := [[text[0]] + rest[0]] + rest[1..];
        if |rest| > 1 {
          assert parts[1..] == rest[1..];
          assert [text[0]] + rest[0] + [SLASH] + Path(rest[1..]) == [text[0]] + (rest[0] + [SLASH] + Path(rest[1..]));
        }
      }
    }
  }

  lemma SegmentsOfKey(parts: seq<Text>)
    requires AreSegments(parts)
    ensures Parts(Path(parts)) == parts
  {
    forall i | 0 <= i < |parts|
      ensures NoSlash(parts[i])
    {
      SegmentHasNoSlash(parts[i]);
    }
    PartsOfPath(parts);
  }

  /* ----- Prefixes, by text and by segments ----- */

  /** The parts begin with `whole`, and the next part begins with `partial`. */
  predicate Continues(parts: seq<Text>, whole: seq<Text>, partial: Text) {
    whole < parts && partial <= parts[|whole|]
  }

  lemma SlashAfter(part: Text, rest: Text)
    ensures var whole := part + ([SLASH] + rest);
            whole[|part|] == SLASH && forall i :: 0 <= i < |part| ==> whole[i] == part[i]
  {
  }

  lemma PrefixWithinPart(prefix: Text, part: Text, rest: Text)
    requires NoSlash(prefix)
    ensures prefix <= part + ([SLASH] + rest) <==> prefix <= part
  {
    var whole := part + ([SLASH] + rest);
    SlashAfter(part, rest);
    if prefix <= part {
      assert whole[..|prefix|] == part[..|prefix|];
    }
  }

  lemma PrefixBeyondPart(first: Text, more: Text, part: Text, rest: Text)
    requires NoSlash(first) && NoSlash(part)
    ensures first + ([SLASH] + more) <= part + ([SLASH] + rest) <==> first == part && more <= rest
  {
    var prefix, whole := first + ([SLASH] + more), part + ([SLASH] + rest);
    if prefix <= whole {
      assert prefix == whole[..|prefix|];
      SlashAfter(first, more);
      SlashAfter(part, rest);
      assert |first| == |part|;
      assert first == prefix[..|first|] == whole[..|part|] == part;
      assert more == prefix[|first| + 1..] && rest == whole[|part| + 1..];
      forall i | 0 <= i < |more|
        ensures more[i] == rest[i]
      {
        assert prefix[|first| + 1 + i] == whole[|part| + 1 + i];
      }
    }
    if first == part && more <= rest {
      assert rest == more + rest[|more|..];
      assert whole == prefix + rest[|more|..];
    }
  }

  lemma NotBeyondLast(first: Text, more: Text, part: Text)
    requires NoSlash(part)
    ensures !(first + ([SLASH] + more) <= part)
  {
    var prefix := first + ([SLASH] + more);
    assert prefix[|first|] == SLASH;
  }

  /** A text prefix of a path is some whole segments and the start of the next one. */
  lemma {:induction false} PrefixBySegments(parts: seq<Text>, whole: seq<Text>, partial: Text)
    requires parts != [] && (forall i :: 0 <= i < |parts| ==> NoSlash(parts[i]))
    requires NoSlash(partial) && forall i :: 0 <= i < |whole| ==> NoSlash(whole[i])
    ensures Path(whole + [partial]) <= Path(parts) <==> Continues(parts, whole, partial)
    decreases |whole|
  {
    if whole == [] {
      assert whole + [partial] == [partial];
      if |parts| > 1 {
        assert Path(parts) == parts[0] + ([SLASH] + Path(parts[1..]));
        PrefixWithinPart(partial, parts[0], Path(parts[1..]));
      }
    } else {
      var more := Path(whole[1..] + [partial]);
      assert (whole + [partial])[1..] == whole[1..] + [partial];
      assert Path(whole + [partial]) == whole[0] + ([SLASH] + more);
      if |parts| == 1 {
        NotBeyondLast(whole[0], more, parts[0]);
      } else {
        assert Path(parts) == parts[0] + ([SLASH] + Path(parts[1..]));
        PrefixBeyondPart(whole[0], more, parts[0], Path(parts[1..]));
        PrefixBySegments(parts[1..], whole[1..], partial);
        ContinuesInRest(parts, whole, partial);
      }
    }
  }

  lemma ContinuesInRest(parts: seq<Text>, whole: seq<Text>, partial: Text)
    requires whole != [] && |parts| > 1
    ensures Continues(parts, whole, partial) <==> parts[0] == whole[0] && Continues(parts[1..], whole[1..], partial)
  {
    if parts[0] == whole[0] && whole[1..] < parts[1..] {
      assert parts == [parts[0]] + parts[1..] && whole == [whole[0]] + whole[1..];
    }
  }

  /* ----- File names ----- */

  /** Upper-case letters become `^` and the lower-case letter. */
  function EncodeSegment(s: Text): Text {
    if s == [] then []
    else (if IsUpper(s[0]) then [CARET, s[0] + 0x20] else [s[0]]) + EncodeSegment(s[1..])
  }

  function DecodeSegment(name: Text): Text {
    if name == [] then []
    else if |name| > 1 && name[0] == CARET && IsLower(name[1]) then [(name[1] - 0x20) as CodeUnit] + DecodeSegment(name[2..])
    else [name[0]] + DecodeSegment(name[1..])
  }

  /** Names are decoded to the segments they come from. */
  lemma {:induction false} DecodeEncoded(s: Text)
    requires forall i :: 0 <= i < |s| ==> IsKeyUnit(s[i])
    ensures DecodeSegment(EncodeSegment(s)) == s
  {
    if s != [] {
      DecodeEncoded(s[1..]);
      var rest := EncodeSegment(s[1..]);
      var name := EncodeSegment(s);
      if IsUpper(s[0]) {
        assert name == [CARET, s[0] + 0x20] + rest;
        assert name[2..] == rest;
      } else {
        assert name[1..] == rest && name[0] != CARET;
      }
      assert s == [s[0]] + s[1..];
    }
  }

  /** What a file system that ignores case makes of a name. */
  function FoldCase(name: Text): Text {
    seq(|name|, i requires 0 <= i < |name| => if IsUpper(name[i]) then (name[i] + 0x20) as CodeUnit else name[i])
  }

  lemma {:induction false} NamesHaveNoUpper(s: Text)
    ensures forall i :: 0 <= i < |EncodeSegment(s)| ==> !IsUpper(EncodeSegment(s)[i])
  {
    if s != [] {
      NamesHaveNoUpper(s[1..]);
    }
  }

  /** Different segments have different names, even where case is ignored. */
  lemma NamesTellIgnoringCase(s: Text, t: Text)
    requires IsSegment(s) && IsSegment(t) && FoldCase(EncodeSegment(s)) == FoldCase(EncodeSegment(t))
    ensures s == t
  {
    NamesHaveNoUpper(s);
    NamesHaveNoUpper(t);
    assert FoldCase(EncodeSegment(s)) == EncodeSegment(s);
    assert FoldCase(EncodeSegment(t)) == EncodeSegment(t);
    DecodeEncoded(s);
    DecodeEncoded(t);
  }
}
