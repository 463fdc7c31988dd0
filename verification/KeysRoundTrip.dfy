/** apps/web/src/actions/keys.ts: a canonical binding parses back to the same steps. */
module KeysRoundTrip {
  import opened Casing
  import opened Wrappers
  import opened Keys

  /** A character that stays itself in lower case and separates nothing. */
  predicate Plain(c: char) {
    c != '+' && !IsSpace(c) && LowerChar(c) == [c]
  }

  predicate AllPlain(s: string) {
    forall i :: 0 <= i < |s| ==> Plain(s[i])
  }

  lemma LowerKeepsPlain(s: string)
    requires AllPlain(s)
    ensures Lower(s) == s
  {
    LowerKeeps(s);
  }

  lemma LettersArePlain(s: string)
    requires forall i :: 0 <= i < |s| ==> 'a' <= s[i] <= 'z' || '0' <= s[i] <= '9'
    ensures AllPlain(s)
  {
  }

  lemma EditingKeysArePlain(key: string)
    requires key in EDITING_KEYS
    ensures AllPlain(key) && key != "" && Alias(key) == key
  {
    LettersArePlain(key);
  }

  lemma MovingKeysArePlain(key: string)
    requires key in MOVING_KEYS
    ensures AllPlain(key) && key != "" && Alias(key) == key
  {
    LettersArePlain(key);
  }

  lemma FunctionKeysArePlain(key: string)
    requires key in FUNCTION_KEYS
    ensures AllPlain(key) && key != "" && Alias(key) == key
  {
    LettersArePlain(key);
  }

  lemma BindableKeysArePlain(key: string)
    requires IsBindableKey(key)
    ensures AllPlain(key) && key != "" && Alias(Lower(key)) == key
  {
    if key in EDITING_KEYS {
      EditingKeysArePlain(key);
    } else if key in MOVING_KEYS {
      MovingKeysArePlain(key);
    } else if key in FUNCTION_KEYS {
      FunctionKeysArePlain(key);
    } else {
      assert |key| == 1;
    }
    LowerKeepsPlain(key);
  }

  lemma ModifiersArePlain(m: string)
    requires m in MODIFIER_ORDER
    ensures AllPlain(m) && m != "" && ModifierOf(m) == m
  {
    LettersArePlain(m);
    LowerKeepsPlain(m);
  }

  /* ----- Modifiers in order ----- */

  lemma {:induction false} PickHolds(order: seq<string>, modifiers: seq<string>)
    ensures forall m :: m in Pick(order, modifiers) <==> m in order && m in modifiers
  {
    if order != [] {
      PickHolds(order[1..], modifiers);
      assert order == [order[0]] + order[1..];
    }
  }

  lemma {:induction false} PickAgain(order: seq<string>, a: seq<string>, b: seq<string>)
    requires forall m :: m in order ==> (m in a <==> m in b)
    ensures Pick(order, a) == Pick(order, b)
  {
    if order != [] {
      assert order[0] in order;
      PickAgain(order[1..], a, b);
    }
  }

  lemma OrderedTwice(modifiers: seq<string>)
    ensures Ordered(Ordered(modifiers)) == Ordered(modifiers)
    ensures forall m :: m in Ordered(modifiers) <==> m in MODIFIER_ORDER && m in modifiers
  {
    PickHolds(MODIFIER_ORDER, modifiers);
    PickAgain(MODIFIER_ORDER, Ordered(modifiers), modifiers);
  }

  predicate Distinct(parts: seq<string>) {
    forall i, j :: 0 <= i < j < |parts| ==> parts[i] != parts[j]
  }

  lemma {:induction false} PickDistinct(order: seq<string>, modifiers: seq<string>)
    requires Distinct(order)
    ensures Distinct(Pick(order, modifiers))
  {
    if order != [] {
      PickDistinct(order[1..], modifiers);
      PickHolds(order[1..], modifiers);
      assert order[0] !in order[1..];
    }
  }

  lemma {:induction false} ModifiersReadBack(parts: seq<string>)
    requires Distinct(parts) && forall m :: m in parts ==> m in MODIFIER_ORDER
    ensures Modifiers(parts) == Some(parts)
  {
    if parts != [] {
      var front, last := parts[..|parts| - 1], parts[|parts| - 1];
      assert last in parts;
      ModifiersReadBack(front);
      ModifiersArePlain(last);
      assert parts == front + [last];
    }
  }

  /* ----- Splitting what was joined ----- */

  predicate Without(s: string, c: char) {
    forall i :: 0 <= i < |s| ==> s[i] != c
  }

  lemma {:induction false} SplitOne(s: string, c: char)
    requires Without(s, c)
    ensures Split(s, c) == [s]
  {
    if s != "" {
      SplitOne(s[1..], c);
      assert s == [s[0]] + s[1..];
    }
  }

  lemma {:induction false} SplitFirst(s: string, c: char, rest: string)
    requires Without(s, c)
    ensures Split(s + ([c] + rest), c) == [s] + Split(rest, c)
  {
    if s == "" {
      assert s + ([c] + rest) == [c] + rest;
      assert ([c] + rest)[1..] == rest;
    } else {
      SplitFirst(s[1..], c, rest);
      var whole := s + ([c] + rest);
      assert whole[1..] == s[1..] + ([c] + rest);
      assert s == [s[0]] + s[1..];
      assert ([s[1..]] + Split(rest, c))[1..] == Split(rest, c);
    }
  }

  lemma {:induction false} SplitJoined(parts: seq<string>, c: char)
    requires parts != [] && forall i :: 0 <= i < |parts| ==> Without(parts[i], c)
    ensures Split(Join(parts, [c]), c) == parts
  {
    if |parts| == 1 {
      SplitOne(parts[0], c);
    } else {
      SplitFirst(parts[0], c, Join(parts[1..], [c]));
      SplitJoined(parts[1..], c);
      assert parts[0] + [c] + Join(parts[1..], [c]) == parts[0] + ([c] + Join(parts[1..], [c]));
    }
  }

  predicate IsToken(s: string) {
    s != "" && forall i :: 0 <= i < |s| ==> !IsSpace(s[i])
  }

  lemma {:induction false} TokenLength(s: string, rest: string)
    requires IsToken(s) && (rest == "" || IsSpace(rest[0]))
    ensures !IsSpace((s + rest)[0]) && WordLength(s + rest) == |s|
  {
    if |s| > 1 {
      TokenLength(s[1..], rest);
      assert (s + rest)[1..] == s[1..] + rest;
    }
  }

  lemma {:induction false} WordsJoined(words: seq<string>)
    requires forall i :: 0 <= i < |words| ==> IsToken(words[i])
    ensures Words(Join(words, " ")) == words
  {
    if |words| == 1 {
      TokenLength(words[0], "");
      assert words[0] + "" == words[0];
      assert words[0][|words[0]|..] == "";
      assert words[0][..|words[0]|] == words[0];
    } else if |words| > 1 {
      var rest := Join(words[1..], " ");
      WordsJoined(words[1..]);
      TokenLength(words[0], " " + rest);
      var whole := words[0] + (" " + rest);
      assert words[0] + " " + rest == whole;
      assert whole[..|words[0]|] == words[0] && whole[|words[0]|..] == " " + rest;
      assert (" " + rest)[1..] == rest;
    }
  }

  /* ----- Chords ----- */

  predicate ValidChord(c: Chord) {
    c.modifiers == Ordered(c.modifiers) && IsBindableKey(c.key) && Agree(c.modifiers, c.key)
  }

  lemma ParsedChordIsValid(token: string)
    requires ChordOf(token).Some?
    ensures ValidChord(ChordOf(token).value)
  {
    hide Split, Pick, Alias, Lower, IsBindableKey;
    var parts := if token == "+" then ["plus"] else Split(token, '+');
    OrderedTwice(Modifiers(parts[..|parts| - 1]).value);
  }

  predicate PlainParts(parts: seq<string>) {
    forall i :: 0 <= i < |parts| ==> AllPlain(parts[i]) && parts[i] != ""
  }

  lemma ChordParts(c: Chord)
    requires ValidChord(c)
    ensures Ordered(c.modifiers) == c.modifiers && Modifiers(c.modifiers) == Some(c.modifiers)
    ensures PlainParts(c.modifiers + [c.key])
  {
    hide IsBindableKey, Alias, Lower, Agree;
    OrderedTwice(c.modifiers);
    PickDistinct(MODIFIER_ORDER, c.modifiers);
    ModifiersReadBack(c.modifiers);
    BindableKeysArePlain(c.key);
    var parts := c.modifiers + [c.key];
    forall i | 0 <= i < |parts|
      ensures AllPlain(parts[i]) && parts[i] != ""
    {
      if i < |c.modifiers| {
        assert parts[i] in c.modifiers;
        ModifiersArePlain(parts[i]);
      }
    }
  }

  lemma {:induction false} JoinedIsToken(parts: seq<string>)
    requires parts != [] && PlainParts(parts)
    ensures IsToken(Join(parts, "+")) && (|parts| == 1 ==> Join(parts, "+") != "+")
    ensures |parts| > 1 ==> |Join(parts, "+")| > 1
  {
    if |parts| > 1 {
      JoinedIsToken(parts[1..]);
    } else {
      assert Plain(parts[0][0]);
    }
  }

  /** The canonical text of a valid chord parses back to the chord. */
  lemma ChordRoundTrip(c: Chord)
    requires ValidChord(c)
    ensures ChordOf(ChordCanonical(c)) == Some(c) && IsToken(ChordCanonical(c))
  {
    hide IsBindableKey, Alias, Lower, Agree, Split, Join, Pick, Modifiers;
    ChordParts(c);
    var parts := c.modifiers + [c.key];
    JoinedIsToken(parts);
    forall i | 0 <= i < |parts|
      ensures Without(parts[i], '+')
    {
      assert AllPlain(parts[i]);
    }
    SplitJoined(parts, '+');
    assert parts[..|parts| - 1] == c.modifiers;
    BindableKeysArePlain(c.key);
  }

  /** Different chords have different canonical texts. */
  lemma CanonicalTells(c: Chord, d: Chord)
    requires ValidChord(c) && ValidChord(d) && ChordCanonical(c) == ChordCanonical(d)
    ensures c == d
  {
    hide ChordCanonical, ChordOf;
    ChordRoundTrip(c);
    ChordRoundTrip(d);
  }

  /* ----- Bindings ----- */

  predicate ValidSteps(steps: seq<Chord>) {
    StepsOk(steps) && forall i :: 0 <= i < |steps| ==> ValidChord(steps[i])
  }

  lemma {:induction false} ParsedChordsAreValid(tokens: seq<string>)
    requires ChordsOf(tokens).Some?
    ensures |ChordsOf(tokens).value| == |tokens|
    ensures forall i :: 0 <= i < |tokens| ==> ValidChord(ChordsOf(tokens).value[i])
  {
    hide ChordOf, ValidChord;
    if tokens != [] {
      ParsedChordIsValid(tokens[0]);
      ParsedChordsAreValid(tokens[1..]);
    }
  }

  lemma {:induction false} ChordsReadBack(steps: seq<Chord>)
    requires forall i :: 0 <= i < |steps| ==> ValidChord(steps[i])
    ensures ChordsOf(Canonicals(steps)) == Some(steps)
  {
    hide ChordOf, ValidChord, ChordCanonical;
    if steps != [] {
      ChordRoundTrip(steps[0]);
      ChordsReadBack(steps[1..]);
      assert Canonicals(steps)[1..] == Canonicals(steps[1..]);
      assert steps == [steps[0]] + steps[1..];
    }
  }

  /** Any steps a binding can have are read back from their canonical text. */
  lemma StepsRoundTrip(steps: seq<Chord>)
    requires ValidSteps(steps)
    ensures ParseBinding(Join(Canonicals(steps), " ")) == Some(ParsedBinding(steps, Join(Canonicals(steps), " ")))
  {
    hide ChordsOf, ValidChord, ChordCanonical, Join, Words, StepsOk;
    var texts := Canonicals(steps);
    forall i | 0 <= i < |texts|
      ensures IsToken(texts[i])
    {
      ChordRoundTrip(steps[i]);
    }
    WordsJoined(texts);
    ChordsReadBack(steps);
  }

  lemma ParsedStepsAreValid(input: string)
    requires ParseBinding(input).Some?
    ensures ValidSteps(ParseBinding(input).value.steps)
  {
    hide ChordsOf, ValidChord, Words;
    ParsedChordsAreValid(Words(input));
  }

  /** Whatever was accepted, its canonical form stands for the same steps, and is its own canonical form. */
  lemma CanonicalParsesBack(input: string)
    requires ParseBinding(input).Some?
    ensures ParseBinding(ParseBinding(input).value.canonical) == ParseBinding(input)
  {
    hide ChordsOf, ValidSteps, Words, Join;
    ParsedStepsAreValid(input);
    StepsRoundTrip(ParseBinding(input).value.steps);
  }

  /** Two accepted bindings have one canonical form exactly when they have the same steps. */
  lemma CanonicalMeansSameSteps(a: string, b: string)
    requires ParseBinding(a).Some? && ParseBinding(b).Some?
    ensures ParseBinding(a).value.canonical == ParseBinding(b).value.canonical <==>
            ParseBinding(a).value.steps == ParseBinding(b).value.steps
  {
    hide ChordsOf, Words, Join;
    CanonicalParsesBack(a);
    CanonicalParsesBack(b);
  }

  /* ----- Aliases ----- */

  lemma {:induction false} SameModifiers(a: string, b: string, rest: seq<string>)
    requires ModifierOf(a) == ModifierOf(b)
    ensures Modifiers([a] + rest) == Modifiers([b] + rest)
    decreases |rest|
  {
    hide ModifierOf;
    if rest == [] {
      assert [a][..0] == [b][..0];
    } else {
      var front := rest[..|rest| - 1];
      SameModifiers(a, b, front);
      assert ([a] + rest)[..|rest|] == [a] + front && ([b] + rest)[..|rest|] == [b] + front;
    }
  }

  lemma CommandIsMod(name: string)
    requires name in {"cmd", "command", "mod"}
    ensures ModifierOf(name) == "mod"
  {
    LettersArePlain(name);
    LowerKeepsPlain(name);
  }

  /** `cmd` and `command` are `mod`, whatever follows. */
  lemma CommandChords(name: string, rest: string)
    requires name in {"cmd", "command", "mod"}
    ensures ChordOf(name + ("+" + rest)) == ChordOf("mod" + ("+" + rest))
  {
    hide ModifierOf, Split, ChordOf;
    CommandIsMod(name);
    CommandIsMod("mod");
    SplitFirst(name, '+', rest);
    SplitFirst("mod", '+', rest);
    SameParts(name + ("+" + rest), "mod" + ("+" + rest), name, "mod", Split(rest, '+'));
  }

  /** Two tokens of several parts that differ in the name of one modifier. */
  lemma SameParts(s: string, t: string, a: string, b: string, tail: seq<string>)
    requires |s| > 1 && |t| > 1 && tail != [] && ModifierOf(a) == ModifierOf(b)
    requires Split(s, '+') == [a] + tail && Split(t, '+') == [b] + tail
    ensures ChordOf(s) == ChordOf(t)
  {
    hide Modifiers, ModifierOf, Alias, Lower, IsBindableKey, Agree, Ordered, Split;
    SameModifiers(a, b, tail[..|tail| - 1]);
    assert ([a] + tail)[..|tail|] == [a] + tail[..|tail| - 1];
    assert ([b] + tail)[..|tail|] == [b] + tail[..|tail| - 1];
  }
}
