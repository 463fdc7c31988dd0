/** apps/web/src/actions/keys.ts: which texts are bindings, and of which chords. */
module KeyTexts {
  import opened Casing
  import opened Wrappers
  import opened Keys
  import opened KeysRoundTrip

  /* ----- Names ----- */

  const PUNCTUATION: set<char> :=
    {'/', '?', '[', ']', ',', '.', ';', '\'', '`', '-', '=', '\\', '!', '@', '#', '$',
     '%', '^', '&', '*', '(', ')', '_', '{', '}', '|', ':', '"', '<', '>', '~'}

  const NAMED: set<string> :=
    {"enter", "escape", "space", "tab", "backspace", "delete", "arrowup", "arrowdown", "arrowleft", "arrowright", "home", "end",
     "pageup", "pagedown", "plus", "f1", "f2", "f3", "f4", "f5", "f6", "f7", "f8", "f9", "f10", "f11", "f12"}

  predicate IsSymbol(c: char) {
    c in PUNCTUATION
  }

  predicate IsAlphanumeric(c: char) {
    'a' <= c <= 'z' || '0' <= c <= '9'
  }

  /** The key that a name in lower case stands for. */
  ghost predicate KeyIs(name: string, key: string) {
    || (key == name && (name in NAMED || (|name| == 1 && (IsAlphanumeric(name[0]) || IsSymbol(name[0])))))
    || (name == "esc" && key == "escape") || (name == "return" && key == "enter") || (name == "del" && key == "delete")
    || (name == "up" && key == "arrowup") || (name == "down" && key == "arrowdown")
    || (name == "left" && key == "arrowleft") || (name == "right" && key == "arrowright")
    || ((name == " " || name == "spacebar") && key == "space") || (name == "+" && key == "plus")
  }

  ghost predicate ModifierIs(name: string, modifier: string) {
    || (modifier == name && (name == "mod" || name == "ctrl" || name == "alt" || name == "shift" || name == "meta"))
    || (modifier == "mod" && (name == "cmd" || name == "command"))
  }

  lemma SymbolsAre(c: char)
    ensures IsPunctuationChar(c) <==> IsSymbol(c)
  {
  }

  lemma NamedAre(key: string)
    ensures IsNamedKey(key) <==> key in NAMED
  {
  }

  lemma KeysAre(name: string, key: string)
    ensures KeyIs(name, key) <==> Alias(name) == key && IsBindableKey(key)
  {
    NamedAre(name);
    NamedAre(key);
    if |name| == 1 {
      SymbolsAre(name[0]);
    }
    if |key| == 1 {
      SymbolsAre(key[0]);
    }
  }

  lemma ModifiersAre(part: string, modifier: string)
    ensures ModifierIs(Lower(part), modifier) <==> ModifierOf(part) == modifier && modifier in MODIFIER_ORDER
  {
    hide Lower;
  }

  /* ----- One chord ----- */

  /** Names of modifiers, each with a plus sign after it, and then the name of a key. */
  function Pluses(names: seq<string>, last: string): string {
    if names == [] then last else names[0] + "+" + Pluses(names[1..], last)
  }

  /** Each name stands for one of the modifiers, and no two for the same. */
  ghost predicate ModifiersNamed(names: seq<string>, modifiers: seq<string>) {
    && |names| == |modifiers|
    && (forall i :: 0 <= i < |names| ==> ModifierIs(Lower(names[i]), modifiers[i]))
    && (forall i, j :: 0 <= i < j < |modifiers| ==> modifiers[i] != modifiers[j])
  }

  function One(m: string, modifiers: seq<string>): seq<string> {
    if m in modifiers then [m] else []
  }

  function InOrder(modifiers: seq<string>): seq<string> {
    One("mod", modifiers)
    + (One("ctrl", modifiers) + (One("alt", modifiers) + (One("shift", modifiers) + (One("meta", modifiers) + []))))
  }

  /** These names, with plus signs between them, are the text of this chord. */
  ghost predicate SpellsChord(token: string, names: seq<string>, last: string, c: Chord) {
    && token == Pluses(names, last) && last != ""
    && (forall i :: 0 <= i < |names| ==> '+' !in names[i]) && '+' !in last
    && KeyIs(Lower(last), c.key)
    && exists modifiers :: ModifiersNamed(names, modifiers) && IsChordOf(modifiers, c)
  }

  /** The chord has these modifiers in canonical order, no Command beside Control or Meta, no Shift with a symbol. */
  ghost predicate IsChordOf(modifiers: seq<string>, c: Chord) {
    && c.modifiers == InOrder(modifiers)
    && ("mod" in modifiers ==> "ctrl" !in modifiers && "meta" !in modifiers)
    && ("shift" in modifiers ==> !(|c.key| == 1 && IsSymbol(c.key[0])))
  }

  lemma PickStep(m: string, rest: seq<string>, modifiers: seq<string>)
    ensures Pick([m] + rest, modifiers) == One(m, modifiers) + Pick(rest, modifiers)
  {
    assert ([m] + rest)[1..] == rest;
  }

  lemma OrderedIs(modifiers: seq<string>)
    ensures Ordered(modifiers) == InOrder(modifiers)
  {
    hide One, Pick;
    var o4 := ["meta"] + [];
    var o3 := ["shift"] + o4;
    var o2 := ["alt"] + o3;
    var o1 := ["ctrl"] + o2;
    assert MODIFIER_ORDER == ["mod"] + o1;
    PickStep("mod", o1, modifiers);
    PickStep("ctrl", o2, modifiers);
    PickStep("alt", o3, modifiers);
    PickStep("shift", o4, modifiers);
    PickStep("meta", [], modifiers);
    PickNothing(modifiers);
  }

  lemma PickNothing(modifiers: seq<string>)
    ensures Pick([], modifiers) == []
  {
  }

  /** One more character at the front of the first part. */
  lemma PlusesGrow(c: char, parts: seq<string>)
    requires parts != []
    ensures var more := [[c] + parts[0]] + parts[1..];
            Pluses(more[..|more| - 1], more[|more| - 1]) == [c] + Pluses(parts[..|parts| - 1], parts[|parts| - 1])
  {
    var more := [[c] + parts[0]] + parts[1..];
    if |parts| > 1 {
      var front, after := parts[..|parts| - 1], more[..|more| - 1];
      assert after[0] == [c] + front[0] && after[1..] == front[1..];
      assert [c] + front[0] + "+" + Pluses(front[1..], parts[|parts| - 1]) == [c] + (front[0] + "+" + Pluses(front[1..], parts[|parts| - 1]));
    }
  }

  lemma {:induction false} SplitSpells(token: string)
    ensures var parts := Split(token, '+'); token == Pluses(parts[..|parts| - 1], parts[|parts| - 1])
  {
    var parts := Split(token, '+');
    if token != "" {
      var rest := Split(token[1..], '+');
      SplitSpells(token[1..]);
      assert token == [token[0]] + token[1..];
      if token[0] == '+' {
        assert parts[..|parts| - 1] == [""] + rest[..|rest| - 1] && parts[..|parts| - 1][1..] == rest[..|rest| - 1];
        assert "" + "+" + token[1..] == token;
      } else {
        hide Pluses;
        PlusesGrow(token[0], rest);
      }
    }
  }

  lemma {:induction false} PartsHaveNoPlus(token: string)
    ensures forall part :: part in Split(token, '+') ==> '+' !in part
  {
    if token != "" {
      var parts, rest := Split(token, '+'), Split(token[1..], '+');
      PartsHaveNoPlus(token[1..]);
      if token[0] == '+' {
        assert parts == [""] + rest;
      } else {
        assert parts == [[token[0]] + rest[0]] + rest[1..];
        assert rest[0] in rest && forall part :: part in rest[1..] ==> part in rest;
      }
    }
  }

  lemma {:induction false} SplitOnly(names: seq<string>, last: string)
    requires (forall i :: 0 <= i < |names| ==> '+' !in names[i]) && '+' !in last
    ensures Split(Pluses(names, last), '+') == names + [last]
  {
    if names == [] {
      SplitOne(last, '+');
    } else {
      SplitOnly(names[1..], last);
      SplitFirst(names[0], '+', Pluses(names[1..], last));
      assert names[0] + "+" + Pluses(names[1..], last) == names[0] + (['+'] + Pluses(names[1..], last));
      assert names == [names[0]] + names[1..];
    }
  }

  lemma {:induction false} ModifiersRead(names: seq<string>, modifiers: seq<string>)
    ensures Modifiers(names) == Some(modifiers) <==> ModifiersNamed(names, modifiers)
  {
    hide Lower, ModifierOf, ModifierIs;
    if names != [] {
      var n := |names| - 1;
      ModifiersAre(names[n], ModifierOf(names[n]));
      if Modifiers(names) == Some(modifiers) {
        assert modifiers == Modifiers(names[..n]).value + [ModifierOf(names[n])];
        ModifiersRead(names[..n], Modifiers(names[..n]).value);
      }
      if ModifiersNamed(names, modifiers) {
        ModifiersRead(names[..n], modifiers[..n]);
        ModifiersAre(names[n], modifiers[n]);
        assert modifiers == modifiers[..n] + [modifiers[n]];
      }
    }
  }

  lemma PlusIsPlus()
    ensures ChordOf("+") == Some(Chord([], "plus"))
  {
    hide Lower, Pick;
    assert ["plus"][..0] == [] && Modifiers([]) == Some([]);
    LettersArePlain("plus");
    LowerKeepsPlain("plus");
    OrderedIs([]);
  }

  lemma PlusAlone(c: Chord)
    ensures ChordOf("+") == Some(c) <==> c == Chord([], "plus")
    ensures forall names, last :: !SpellsChord("+", names, last, c)
  {
    PlusIsPlus();
    hide SpellsChord, ChordOf;
    forall names, last
      ensures !SpellsChord("+", names, last, c)
    {
      PlusSpellsNothing(names, last, c);
    }
  }

  lemma PlusSpellsNothing(names: seq<string>, last: string, c: Chord)
    ensures !SpellsChord("+", names, last, c)
  {
    hide KeyIs, ModifiersNamed, IsChordOf;
    SplitOnly([""], "");
    assert Pluses([""], "") == "+";
    if SpellsChord("+", names, last, c) {
      SplitOnly(names, last);
    }
  }

  /** The parts of a token, cut at its plus signs. */
  lemma TokenParts(token: string) returns (names: seq<string>, last: string)
    ensures Split(token, '+') == names + [last] && token == Pluses(names, last)
    ensures (forall i :: 0 <= i < |names| ==> '+' !in names[i]) && '+' !in last
  {
    var parts := Split(token, '+');
    SplitSpells(token);
    PartsHaveNoPlus(token);
    hide Split, Pluses;
    names, last := parts[..|parts| - 1], parts[|parts| - 1];
    assert forall i :: 0 <= i < |names| ==> names[i] == parts[i];
  }

  lemma SpelledIsChord(token: string, names: seq<string>, last: string, c: Chord)
    requires token != "+" && SpellsChord(token, names, last, c)
    ensures ChordOf(token) == Some(c)
  {
    hide ChordOf, KeyIs, ModifiersNamed, IsChordOf;
    SplitOnly(names, last);
    PartsMean(token, names, last, c);
  }

  /** A token is read as a chord exactly when it is a plus sign, or names of modifiers and of a key that spell it. */
  lemma ChordsExactly(token: string, c: Chord)
    ensures ChordOf(token) == Some(c)
            <==> (token == "+" && c == Chord([], "plus")) || exists names, last :: SpellsChord(token, names, last, c)
  {
    hide ChordOf, SpellsChord, Split, Pluses;
    if token == "+" {
      PlusAlone(c);
    } else {
      if ChordOf(token) == Some(c) {
        var names, last := TokenParts(token);
        PartsMean(token, names, last, c);
      }
      if names, last :| SpellsChord(token, names, last, c) {
        SpelledIsChord(token, names, last, c);
      }
    }
  }

  /** The chord that modifiers and a key make, if they make one. */
  lemma AgreeMeans(modifiers: seq<string>, key: string, c: Chord)
    requires c.key == key
    ensures IsChordOf(modifiers, c) <==> Agree(modifiers, key) && c.modifiers == Ordered(modifiers)
  {
    hide One, Pick, Ordered;
    OrderedIs(modifiers);
    if |key| == 1 {
      SymbolsAre(key[0]);
    }
  }

  lemma SplitNothing()
    ensures Split("", '+') == [""]
  {
  }

  lemma PartsMean(token: string, names: seq<string>, last: string, c: Chord)
    requires token != "+" && token == Pluses(names, last) && Split(token, '+') == names + [last]
    requires (forall i :: 0 <= i < |names| ==> '+' !in names[i]) && '+' !in last
    ensures ChordOf(token) == Some(c) <==> SpellsChord(token, names, last, c)
  {
    hide Split, Pluses, Lower, Alias, IsBindableKey, KeyIs, ModifiersNamed, Ordered, IsChordOf, Agree, Modifiers;
    assert (names + [last])[..|names|] == names;
    KeysAre(Lower(last), c.key);
    if Modifiers(names).Some? {
      ModifiersRead(names, Modifiers(names).value);
      AgreeMeans(Modifiers(names).value, c.key, c);
    }
    forall modifiers | ModifiersNamed(names, modifiers)
      ensures Modifiers(names) == Some(modifiers)
    {
      ModifiersRead(names, modifiers);
    }
    SplitNothing();
  }

  /* ----- Bindings ----- */

  predicate IsGap(s: string) {
    forall i :: 0 <= i < |s| ==> IsSpace(s[i])
  }

  /** Words with white space before, between and after them. */
  function Laid(gaps: seq<string>, words: seq<string>): string
    requires |gaps| == |words| + 1
  {
    if words == [] then gaps[0] else gaps[0] + (words[0] + Laid(gaps[1..], words[1..]))
  }

  ghost predicate IsLaid(gaps: seq<string>, words: seq<string>) {
    && |gaps| == |words| + 1
    && (forall i :: 0 <= i < |gaps| ==> IsGap(gaps[i]))
    && (forall i :: 0 < i < |words| ==> gaps[i] != "")
    && (forall i :: 0 <= i < |words| ==> IsToken(words[i]))
  }

  lemma {:induction false} WordsLaid(s: string) returns (gaps: seq<string>)
    ensures IsLaid(gaps, Words(s)) && Laid(gaps, Words(s)) == s
    decreases |s|
  {
    if s == "" {
      gaps := [""];
    } else if IsSpace(s[0]) {
      hide IsLaid, IsSpace;
      gaps := WordsLaid(s[1..]);
      assert s == [s[0]] + s[1..];
      gaps := GapBefore(s[0], gaps, Words(s[1..]));
    } else {
      var n := WordLength(s);
      gaps := WordsLaid(s[n..]);
      assert s == s[..n] + s[n..] && Words(s) == [s[..n]] + Words(s[n..]);
      hide IsLaid, IsSpace;
      gaps := WordBefore(s[..n], gaps, Words(s[n..]), s[n..]);
    }
  }

  lemma GapBefore(c: char, gaps: seq<string>, words: seq<string>) returns (more: seq<string>)
    requires IsLaid(gaps, words) && IsSpace(c)
    ensures IsLaid(more, words) && Laid(more, words) == [c] + Laid(gaps, words)
  {
    GapGrows(c, gaps, words);
    more := [[c] + gaps[0]] + gaps[1..];
  }

  lemma WordBefore(word: string, gaps: seq<string>, words: seq<string>, rest: string) returns (more: seq<string>)
    requires IsToken(word) && IsLaid(gaps, words) && Laid(gaps, words) == rest && (rest != "" ==> IsSpace(rest[0]))
    ensures IsLaid(more, [word] + words) && Laid(more, [word] + words) == word + rest
  {
    hide IsSpace, IsToken;
    if rest != "" {
      FirstGap(gaps, words);
    } else if words != [] {
      NothingIsLaid(gaps, words);
    }
    WordFirst(word, gaps, words);
    more := [""] + gaps;
  }

  lemma NothingIsLaid(gaps: seq<string>, words: seq<string>)
    requires IsLaid(gaps, words) && words != []
    ensures Laid(gaps, words) != ""
  {
  }

  lemma FirstGap(gaps: seq<string>, words: seq<string>)
    requires IsLaid(gaps, words) && Laid(gaps, words) != "" && IsSpace(Laid(gaps, words)[0])
    ensures gaps[0] != ""
  {
  }

  lemma GapGrows(c: char, gaps: seq<string>, words: seq<string>)
    requires IsLaid(gaps, words) && IsSpace(c)
    ensures var more := [[c] + gaps[0]] + gaps[1..]; IsLaid(more, words) && Laid(more, words) == [c] + Laid(gaps, words)
  {
    hide IsSpace;
    var more := [[c] + gaps[0]] + gaps[1..];
    assert more[1..] == gaps[1..];
    assert IsGap(more[0]) by {
      assert IsGap(gaps[0]);
    }
    hide IsGap, IsToken;
  }

  lemma WordFirst(word: string, gaps: seq<string>, words: seq<string>)
    requires IsToken(word) && IsLaid(gaps, words) && (words != [] ==> gaps[0] != "")
    ensures IsLaid([""] + gaps, [word] + words) && Laid([""] + gaps, [word] + words) == word + Laid(gaps, words)
  {
    hide IsSpace;
    assert ([""] + gaps)[1..] == gaps && ([word] + words)[1..] == words;
  }

  lemma {:induction false} GapIsSkipped(gap: string, s: string)
    requires IsGap(gap)
    ensures Words(gap + s) == Words(s)
  {
    if gap == "" {
      assert gap + s == s;
    } else {
      assert (gap + s)[1..] == gap[1..] + s;
      GapIsSkipped(gap[1..], s);
    }
  }

  lemma {:induction false} LaidWords(gaps: seq<string>, words: seq<string>)
    requires IsLaid(gaps, words)
    ensures Words(Laid(gaps, words)) == words
    decreases |words|
  {
    hide IsSpace;
    if words == [] {
      GapIsSkipped(gaps[0], "");
      assert gaps[0] + "" == gaps[0];
    } else {
      var rest := Laid(gaps[1..], words[1..]);
      LaidWords(gaps[1..], words[1..]);
      GapIsSkipped(gaps[0], words[0] + rest);
      assert rest != "" ==> IsSpace(rest[0]) by {
        assert gaps[1..][0] == gaps[1] && IsGap(gaps[1]);
      }
      TokenLength(words[0], rest);
      assert (words[0] + rest)[..|words[0]|] == words[0] && (words[0] + rest)[|words[0]|..] == rest;
      assert words == [words[0]] + words[1..];
    }
  }

  /** The word is a plus sign, or spells the chord. */
  ghost predicate IsChordText(word: string, c: Chord) {
    (word == "+" && c == Chord([], "plus")) || exists names, last :: SpellsChord(word, names, last, c)
  }

  /** One chord, or two or three keys of one character each. */
  ghost predicate AreSteps(steps: seq<Chord>) {
    || |steps| == 1
    || (2 <= |steps| <= 3 && forall i :: 0 <= i < |steps| ==> steps[i].modifiers == [] && |steps[i].key| == 1)
  }

  ghost predicate SpellsSteps(input: string, gaps: seq<string>, words: seq<string>, steps: seq<Chord>) {
    && IsLaid(gaps, words) && input == Laid(gaps, words)
    && |words| == |steps| && forall i :: 0 <= i < |words| ==> IsChordText(words[i], steps[i])
  }

  lemma {:induction false} ChordsRead(words: seq<string>, steps: seq<Chord>)
    ensures ChordsOf(words) == Some(steps) <==> |words| == |steps| && forall i :: 0 <= i < |words| ==> IsChordText(words[i], steps[i])
  {
    hide ChordOf, IsChordText;
    if words != [] {
      if ChordOf(words[0]).Some? {
        WordReads(words[0], ChordOf(words[0]).value);
      }
      if steps != [] {
        WordReads(words[0], steps[0]);
        ChordsRead(words[1..], steps[1..]);
        assert steps == [steps[0]] + steps[1..];
      }
    }
  }

  lemma WordReads(word: string, c: Chord)
    ensures ChordOf(word) == Some(c) <==> IsChordText(word, c)
  {
    ChordsExactly(word, c);
  }

  lemma StepsAre(steps: seq<Chord>)
    requires forall i :: 0 <= i < |steps| ==> IsBindableKey(steps[i].key)
    ensures StepsOk(steps) <==> AreSteps(steps)
  {
    forall i | 0 <= i < |steps|
      ensures IsLetterOrDigit(steps[i].key) || IsPunctuationKey(steps[i].key) <==> |steps[i].key| == 1
    {
      assert IsNamedKey(steps[i].key) ==> |steps[i].key| > 1;
    }
    hide IsLetterOrDigit, IsPunctuationKey, IsNamedKey;
  }

  /**
   * A text is a binding of these steps exactly when it is words that spell them, with white space around and
   * between, and they are one chord or two or three plain keys.
   */
  lemma BindingsExactly(input: string, steps: seq<Chord>)
    ensures ParseBinding(input).Some? && ParseBinding(input).value.steps == steps
            <==> AreSteps(steps) && exists gaps, words :: SpellsSteps(input, gaps, words, steps)
  {
    hide ChordsOf, Words, Join, StepsOk, AreSteps, IsLaid, IsChordText, IsBindableKey;
    var words := Words(input);
    var gaps := WordsLaid(input);
    ChordsRead(words, steps);
    if ChordsOf(words) == Some(steps) {
      assert SpellsSteps(input, gaps, words, steps);
      ChordsBindable(words);
      StepsAre(steps);
    }
    if gaps', words' :| SpellsSteps(input, gaps', words', steps) {
      LaidWords(gaps', words');
    }
  }

  lemma ChordsBindable(words: seq<string>)
    requires ChordsOf(words).Some?
    ensures forall i :: 0 <= i < |ChordsOf(words).value| ==> IsBindableKey(ChordsOf(words).value[i].key)
  {
    ParsedChordsAreValid(words);
  }
}
