/** Compiling named parameters commutes with lexing, exactly when no replacement merges with a neighbour. */
module SqlCompositional {
  import opened Wrappers
  import opened SqlLexer
  import opened SqlLocality
  import opened SqlQuery

  /** A token without its position. */
  datatype Tok = Tok(kind: TokenKind, text: string)

  function TokOf(l: Lexeme): seq<Tok> {
    if l.kind.None? then [] else [Tok(l.kind.value, l.text)]
  }

  function Toks(lexemes: seq<Lexeme>): seq<Tok> {
    if lexemes == [] then [] else TokOf(lexemes[0]) + Toks(lexemes[1..])
  }

  /** The token stream of a text. */
  function Retokenized(s: string): Option<seq<Tok>> {
    if Lexemes(s).Some? then Some(Toks(Lexemes(s).value)) else None
  }

  function After(front: seq<Tok>, rest: Option<seq<Tok>>): Option<seq<Tok>> {
    if rest.None? then None else Some(front + rest.value)
  }

  predicate IsParam(l: Lexeme) {
    l.kind == Some(Parameter)
  }

  predicate AllNamed(lexemes: seq<Lexeme>, params: SqlParams) {
    forall i :: 0 <= i < |lexemes| && IsParam(lexemes[i]) ==> IsNamed(lexemes[i].text, params)
  }

  function OutputOf(l: Lexeme, params: SqlParams): string
    requires IsParam(l) ==> IsNamed(l.text, params)
  {
    if IsParam(l) then Replacement(ValueOf(l.text, params)) else l.text
  }

  /** The compiled text, piece by piece. */
  function Output(lexemes: seq<Lexeme>, params: SqlParams): string
    requires AllNamed(lexemes, params)
  {
    if lexemes == [] then "" else OutputOf(lexemes[0], params) + Output(lexemes[1..], params)
  }

  function MarkToks(n: nat): seq<Tok>
    requires n > 0
  {
    if n == 1 then [Tok(Parameter, "?")] else [Tok(Parameter, "?"), Tok(Punctuation, ",")] + MarkToks(n - 1)
  }

  /** The tokens a value stands for. */
  function ValueToks(value: SqlValue): seq<Tok> {
    match value
    case Null => [Tok(Word, "NULL")]
    case Text(_) => [Tok(Parameter, "?")]
    case List(items) =>
      if items == [] then [Tok(Word, "SELECT"), Tok(Word, "NULL"), Tok(Word, "WHERE"), Tok(Number, "0")]
      else MarkToks(|items|)
  }

  function ExpectedOf(l: Lexeme, params: SqlParams): seq<Tok>
    requires IsParam(l) ==> IsNamed(l.text, params)
  {
    if IsParam(l) then ValueToks(ValueOf(l.text, params)) else TokOf(l)
  }

  /** The source tokens with each named parameter replaced by the tokens of its value. */
  function Expected(lexemes: seq<Lexeme>, params: SqlParams): seq<Tok>
    requires AllNamed(lexemes, params)
  {
    if lexemes == [] then [] else ExpectedOf(lexemes[0], params) + Expected(lexemes[1..], params)
  }

  /* ----- When a replacement runs into its neighbour ----- */

  /** The value compiles to text that begins with a letter. */
  predicate IsWordy(value: SqlValue) {
    value.Null? || (value.List? && value.items == [])
  }

  /**
   * A NULL or empty-list parameter directly after a word, a `:`, `@` or `$` that stands alone, or a NULL
   * parameter; or an empty-list parameter directly before a dot.
   */
  predicate Merges(l: Lexeme, m: Lexeme, params: SqlParams)
    requires IsParam(l) ==> IsNamed(l.text, params)
    requires IsParam(m) ==> IsNamed(m.text, params)
  {
    || (IsParam(m) && IsWordy(ValueOf(m.text, params))
        && (if IsParam(l) then ValueOf(l.text, params).Null? else TakesLetter(l.kind, l.text)))
    || (IsParam(l) && !IsParam(m) && ValueOf(l.text, params) == List([]) && At(m.text, 0, '.'))
  }

  predicate NoMerge(lexemes: seq<Lexeme>, params: SqlParams)
    requires AllNamed(lexemes, params)
  {
    forall i, j :: 0 <= i && j == i + 1 < |lexemes| ==> !Merges(lexemes[i], lexemes[j], params)
  }

  /* ----- Lexing piece by piece ----- */

  lemma PieceThen(u: string, kind: Option<TokenKind>, w: string)
    requires u != "" && LexNext(u + w) == Piece(kind, |u|)
    ensures Retokenized(u + w) == After(TokOf(Lexeme(kind, u)), Retokenized(w))
  {
    hide LexNext;
    assert (u + w)[|u|..] == w && (u + w)[..|u|] == u;
    if Lexemes(w).Some? {
      var all := [Lexeme(kind, u)] + Lexemes(w).value;
      assert all[1..] == Lexemes(w).value;
    }
  }

  /** When the first piece is a longer token than expected, the token stream is a different one. */
  lemma LongerPiece(s: string, n: nat, expected: seq<Tok>)
    requires s != "" && LexNext(s).Piece? && LexNext(s).kind.Some? && LexNext(s).len > n
    requires expected != [] && |expected[0].text| == n
    ensures Retokenized(s) != Some(expected)
  {
    hide LexNext;
    if Lexemes(s).Some? {
      var len := LexNext(s).len;
      assert Lexemes(s).value[0].text == s[..len];
      assert Toks(Lexemes(s).value)[0].text == s[..len];
    }
  }

  lemma SamePrefix(front: seq<Tok>, rest: Option<seq<Tok>>, expected: seq<Tok>)
    ensures After(front, rest) == Some(front + expected) <==> rest == Some(expected)
  {
    if rest.Some? && front + rest.value == front + expected {
      assert rest.value == (front + rest.value)[|front|..] == (front + expected)[|front|..] == expected;
    }
  }

  /** What may stand after a replacement: the end, a placeholder, a wordy replacement, or no identifier part. */
  predicate FreshStart(w: string) {
    w == "" || w[0] == '?' || w[0] == 'N' || w[0] == 'S' || !IsIdentifierPart(w[0])
  }

  lemma MarkThen(w: string)
    requires FreshStart(w)
    ensures Retokenized("?" + w) == After([Tok(Parameter, "?")], Retokenized(w))
  {
    assert LexNext("?" + w) == Piece(Some(Parameter), 1);
    PieceThen("?", Some(Parameter), w);
  }

  lemma CommaThen(w: string)
    ensures Retokenized("," + (" " + w)) == After([Tok(Punctuation, ",")], Retokenized(w))
  {
    assert LexNext("," + (" " + w)) == Piece(Some(Punctuation), 1);
    PieceThen(",", Some(Punctuation), " " + w);
    SpaceThen(w);
  }

  lemma SpaceThen(w: string)
    ensures Retokenized(" " + w) == Retokenized(w)
  {
    assert LexNext(" " + w) == Piece(None, 1);
    PieceThen(" ", None, w);
    assert Retokenized(w).Some? ==> [] + Retokenized(w).value == Retokenized(w).value;
  }

  lemma CommaIsFresh(w: string)
    ensures FreshStart("," + w)
  {
  }

  lemma {:induction false} MarksThen(n: nat, w: string)
    requires n > 0 && FreshStart(w)
    ensures Retokenized(Marks(n) + w) == After(MarkToks(n), Retokenized(w))
  {
    hide Retokenized, FreshStart, After;
    if n == 1 {
      MarkThen(w);
    } else {
      var tail := Marks(n - 1) + w;
      MarksThen(n - 1, w);
      MarksText(n, w);
      CommaIsFresh(" " + tail);
      MarkThen("," + (" " + tail));
      CommaThen(tail);
      AfterTwo([Tok(Parameter, "?")], [Tok(Punctuation, ",")], MarkToks(n - 1), Retokenized(w));
      assert MarkToks(n) == [Tok(Parameter, "?")] + ([Tok(Punctuation, ",")] + MarkToks(n - 1));
    }
  }

  lemma MarksText(n: nat, w: string)
    requires n > 1
    ensures Marks(n) + w == "?" + ("," + (" " + (Marks(n - 1) + w)))
  {
    hide Marks;
    MarksMore(n);
  }

  lemma MarksMore(n: nat)
    requires n > 1
    ensures Marks(n) == "?, " + Marks(n - 1)
  {
  }

  lemma AfterTwo(a: seq<Tok>, b: seq<Tok>, c: seq<Tok>, rest: Option<seq<Tok>>)
    ensures After(a, After(b, After(c, rest))) == After(a + (b + c), rest)
  {
    if rest.Some? {
      assert a + (b + (c + rest.value)) == a + (b + c) + rest.value;
    }
  }

  /** A keyword or number at the head of a text, with what follows it. */
  lemma WordThen(word: string, w: string)
    requires word in {"NULL", "SELECT", "WHERE"} && (w == "" || !IsIdentifierPart(w[0]))
    ensures Retokenized(word + w) == After([Tok(Word, word)], Retokenized(w))
  {
    WordRuns(word, w);
    PieceThen(word, Some(Word), w);
  }

  lemma WordRuns(word: string, w: string)
    requires word in {"NULL", "SELECT", "WHERE"}
    ensures LexNext(word + w).Piece? && LexNext(word + w).kind == Some(Word) && LexNext(word + w).len >= |word|
    ensures LexNext(word + w).len == |word| <==> w == "" || !IsIdentifierPart(w[0])
  {
    assert forall i :: 1 <= i < |word| ==> IsIdentifierPart(word[i]);
    RunToEnd(word, 1);
    assert word + "" == word;
    SpanLocal(word, "", w, 1, IdentifierParts);
    Shared(word, "", w, 0);
    Shared(word, "", w, 1);
  }

  lemma {:induction false} RunToEnd(word: string, i: nat)
    requires i <= |word| && forall k :: i <= k < |word| ==> IsIdentifierPart(word[k])
    ensures Span(word, i, IdentifierParts) == |word|
    decreases |word| - i
  {
    if i < |word| {
      RunToEnd(word, i + 1);
    }
  }

  lemma ZeroThen(w: string)
    requires FreshStart(w)
    ensures LexNext("0" + w).Piece? && LexNext("0" + w).kind == Some(Number) && LexNext("0" + w).len >= 1
    ensures LexNext("0" + w).len == 1 <==> !At(w, 0, '.')
  {
    Beyond("0", w, 0);
    Beyond("0", w, 1);
    assert Span("0" + "", 0, DigitsOrUnderscore) == 1;
    SpanLocal("0", "", w, 0, DigitsOrUnderscore);
  }

  lemma AfterAfter(f: seq<Tok>, g: seq<Tok>, rest: Option<seq<Tok>>)
    ensures After(f, After(g, rest)) == After(f + g, rest)
  {
    assert rest.Some? ==> f + (g + rest.value) == f + g + rest.value;
  }

  lemma WordSpaceThen(word: string, w: string)
    requires word in {"NULL", "SELECT", "WHERE"}
    ensures Retokenized(word + (" " + w)) == After([Tok(Word, word)], Retokenized(w))
  {
    WordThen(word, " " + w);
    SpaceThen(w);
  }

  lemma EmptyListHead(w: string)
    ensures Retokenized(EMPTY_LIST + w)
         == After([Tok(Word, "SELECT"), Tok(Word, "NULL"), Tok(Word, "WHERE")], Retokenized("0" + w))
  {
    hide LexNext, Retokenized, After;
    var zero := "0" + w;
    var c := "WHERE" + (" " + zero);
    var b := "NULL" + (" " + c);
    assert EMPTY_LIST + w == "SELECT" + (" " + b);
    WordSpaceThen("SELECT", b);
    WordSpaceThen("NULL", c);
    WordSpaceThen("WHERE", zero);
    AfterAfter([Tok(Word, "NULL")], [Tok(Word, "WHERE")], Retokenized(zero));
    AfterAfter([Tok(Word, "SELECT")], [Tok(Word, "NULL")] + [Tok(Word, "WHERE")], Retokenized(zero));
    assert [Tok(Word, "SELECT")] + ([Tok(Word, "NULL")] + [Tok(Word, "WHERE")])
        == [Tok(Word, "SELECT"), Tok(Word, "NULL"), Tok(Word, "WHERE")];
  }

  /** An empty list keeps its tokens exactly when no dot follows. */
  lemma EmptyListThen(w: string, rest: seq<Tok>)
    requires FreshStart(w)
    ensures Retokenized(EMPTY_LIST + w) == Some(ValueToks(List([])) + rest)
            <==> !At(w, 0, '.') && Retokenized(w) == Some(rest)
  {
    hide LexNext, Retokenized;
    var front, expected := [Tok(Word, "SELECT"), Tok(Word, "NULL"), Tok(Word, "WHERE")], [Tok(Number, "0")] + rest;
    EmptyListHead(w);
    ZeroThen(w);
    assert front + expected == ValueToks(List([])) + rest;
    SamePrefix(front, Retokenized("0" + w), expected);
    if !At(w, 0, '.') {
      PieceThen("0", Some(Number), w);
      SamePrefix([Tok(Number, "0")], Retokenized(w), rest);
    } else {
      LongerPiece("0" + w, 1, expected);
    }
  }

  /** NULL keeps its token exactly when nothing wordy follows. */
  lemma NullThen(w: string, rest: seq<Tok>)
    ensures Retokenized("NULL" + w) == Some(ValueToks(Null) + rest)
            <==> (w == "" || !IsIdentifierPart(w[0])) && Retokenized(w) == Some(rest)
  {
    hide LexNext, Retokenized;
    WordRuns("NULL", w);
    if w == "" || !IsIdentifierPart(w[0]) {
      PieceThen("NULL", Some(Word), w);
      SamePrefix([Tok(Word, "NULL")], Retokenized(w), rest);
    } else {
      LongerPiece("NULL" + w, 4, [Tok(Word, "NULL")] + rest);
    }
  }

  /** A string or a non-empty list always keeps its tokens. */
  lemma PlaceholdersThen(value: SqlValue, w: string, rest: seq<Tok>)
    requires !IsWordy(value) && FreshStart(w)
    ensures Retokenized(Replacement(value) + w) == Some(ValueToks(value) + rest) <==> Retokenized(w) == Some(rest)
  {
    hide Retokenized;
    if value.Text? {
      MarkThen(w);
    } else {
      MarksThen(|value.items|, w);
    }
    SamePrefix(ValueToks(value), Retokenized(w), rest);
  }

  /* ----- The beginning of what follows ----- */

  ghost predicate Lexed(lexemes: seq<Lexeme>) {
    Lexemes(Join(lexemes)) == Some(lexemes)
  }

  lemma LexedStep(lexemes: seq<Lexeme>)
    requires Lexed(lexemes) && lexemes != []
    ensures lexemes[0].text != "" && LexNext(lexemes[0].text + Join(lexemes[1..])) == Piece(lexemes[0].kind, |lexemes[0].text|)
    ensures Lexed(lexemes[1..])
  {
    var s := Join(lexemes);
    var len := LexNext(s).len;
    assert lexemes[0].text == s[..len];
    assert s == lexemes[0].text + Join(lexemes[1..]);
    assert s[len..] == Join(lexemes[1..]);
    assert lexemes[1..] == Lexemes(s[len..]).value;
  }

  lemma NamedStep(lexemes: seq<Lexeme>, params: SqlParams)
    requires AllNamed(lexemes, params) && lexemes != []
    ensures IsParam(lexemes[0]) ==> IsNamed(lexemes[0].text, params)
    ensures AllNamed(lexemes[1..], params)
  {
    assert forall i :: 0 <= i < |lexemes| - 1 ==> lexemes[1..][i] == lexemes[i + 1];
  }

  function Head(s: string): Option<char> {
    if s == "" then None else Some(s[0])
  }

  predicate IsWordyParam(l: Lexeme, params: SqlParams) {
    IsParam(l) && IsNamed(l.text, params) && IsWordy(ValueOf(l.text, params))
  }

  /** How the compiled rest begins, against how the source rest began. */
  lemma OutputHead(lexemes: seq<Lexeme>, params: SqlParams)
    requires Lexed(lexemes) && AllNamed(lexemes, params)
    ensures var v, w := Join(lexemes), Output(lexemes, params);
            if lexemes == [] then v == "" && w == ""
            else if IsParam(lexemes[0]) then
              && v != "" && v[0] == ':' && w != ""
              && (if IsWordyParam(lexemes[0], params) then w[0] == 'N' || w[0] == 'S' else w[0] == '?')
            else v != "" && w != "" && v[0] == w[0] == lexemes[0].text[0]
  {
    hide LexNext;
    if lexemes != [] {
      LexedStep(lexemes);
      NamedStep(lexemes, params);
      if IsParam(lexemes[0]) {
        ReplacementHead(ValueOf(lexemes[0].text, params));
      }
    }
  }

  lemma ReplacementHead(value: SqlValue)
    ensures Replacement(value) != ""
    ensures if IsWordy(value) then Replacement(value)[0] == 'N' || Replacement(value)[0] == 'S' else Replacement(value)[0] == '?'
  {
  }

  lemma OutputAlike(lexemes: seq<Lexeme>, params: SqlParams)
    requires Lexed(lexemes) && AllNamed(lexemes, params)
    requires lexemes == [] || !IsParam(lexemes[0])
    ensures Alike(Join(lexemes), Output(lexemes, params))
  {
    hide LexNext;
    if lexemes != [] {
      LexedStep(lexemes);
      NamedStep(lexemes, params);
      var first, rest := lexemes[0], lexemes[1..];
      OutputHead(rest, params);
      var v, w := Join(lexemes), Output(lexemes, params);
      assert v == first.text + Join(rest) && w == first.text + Output(rest, params);
      if |first.text| == 1 && rest != [] {
        assert v[1] == Join(rest)[0] && w[1] == Output(rest, params)[0];
      }
    }
  }

  /* ----- The theorem ----- */

  lemma NoMergeStep(lexemes: seq<Lexeme>, params: SqlParams)
    requires AllNamed(lexemes, params) && lexemes != []
    ensures AllNamed(lexemes[1..], params)
    ensures NoMerge(lexemes, params) <==>
            NoMerge(lexemes[1..], params) && (|lexemes| == 1 || !Merges(lexemes[0], lexemes[1], params))
  {
    hide Merges, IsNamed;
    NamedStep(lexemes, params);
    var rest := lexemes[1..];
    if NoMerge(rest, params) && (|lexemes| == 1 || !Merges(lexemes[0], lexemes[1], params)) {
      forall i, j | 0 <= i && j == i + 1 < |lexemes|
        ensures !Merges(lexemes[i], lexemes[j], params)
      {
        if i > 0 {
          assert rest[i - 1] == lexemes[i] && rest[j - 1] == lexemes[j];
        }
      }
    }
    if NoMerge(lexemes, params) {
      forall i, j | 0 <= i && j == i + 1 < |rest|
        ensures !Merges(rest[i], rest[j], params)
      {
        assert rest[i] == lexemes[i + 1] && rest[j] == lexemes[j + 1];
      }
    }
  }

  /** The step over a piece that is no parameter. */
  lemma PlainStep(lexemes: seq<Lexeme>, params: SqlParams)
    requires Lexed(lexemes) && AllNamed(lexemes, params) && lexemes != [] && !IsParam(lexemes[0])
    requires AllNamed(lexemes[1..], params)
    ensures Retokenized(Output(lexemes, params)) == Some(Expected(lexemes, params)) <==>
            Retokenized(Output(lexemes[1..], params)) == Some(Expected(lexemes[1..], params))
            && (|lexemes| == 1 || !Merges(lexemes[0], lexemes[1], params))
  {
    hide LexNext, Retokenized;
    var l, rest := lexemes[0], lexemes[1..];
    var v, w := Join(rest), Output(rest, params);
    LexedStep(lexemes);
    OutputHead(rest, params);
    if rest != [] && IsWordyParam(rest[0], params) && TakesLetter(l.kind, l.text) {
      LetterTaken(l.kind, l.text, v, w);
      LongerPiece(l.text + w, |l.text|, Expected(lexemes, params));
    } else {
      if rest == [] || !IsParam(rest[0]) {
        OutputAlike(rest, params);
      }
      LexLocal(l.kind, l.text, v, w);
      PieceThen(l.text, l.kind, w);
      SamePrefix(TokOf(l), Retokenized(w), Expected(rest, params));
    }
  }

  /** After a named parameter no identifier part follows. */
  lemma NameEnds(u: string, v: string)
    requires u != "" && u[0] == ':' && LexNext(u + v) == Piece(Some(Parameter), |u|)
    ensures v == "" || !IsIdentifierPart(v[0])
  {
    hide Span, Past, PastClose, NumberEnd, ScanQuoted;
    Shared(u, v, v, 0);
    SpanLocal(u, v, v, 2, IdentifierParts);
  }

  /** The step over a parameter. */
  lemma ParamStep(lexemes: seq<Lexeme>, params: SqlParams)
    requires Lexed(lexemes) && AllNamed(lexemes, params) && lexemes != [] && IsParam(lexemes[0])
    requires AllNamed(lexemes[1..], params)
    ensures Retokenized(Output(lexemes, params)) == Some(Expected(lexemes, params)) <==>
            Retokenized(Output(lexemes[1..], params)) == Some(Expected(lexemes[1..], params))
            && (|lexemes| == 1 || !Merges(lexemes[0], lexemes[1], params))
  {
    hide LexNext, Retokenized, Marks, MarkToks;
    var l, rest := lexemes[0], lexemes[1..];
    var v, w := Join(rest), Output(rest, params);
    LexedStep(lexemes);
    OutputHead(rest, params);
    NameEnds(l.text, v);
    assert FreshStart(w);
    var value := ValueOf(l.text, params);
    if value.Null? {
      NullThen(w, Expected(rest, params));
    } else if value == List([]) {
      EmptyListThen(w, Expected(rest, params));
    } else {
      PlaceholdersThen(value, w, Expected(rest, params));
    }
  }

  /**
   * The tokens of the compiled text are the source tokens with every named parameter replaced by the
   * tokens of its value, exactly when no replacement merges with a neighbour.
   */
  lemma {:induction false} Compositional(lexemes: seq<Lexeme>, params: SqlParams)
    requires Lexed(lexemes) && AllNamed(lexemes, params)
    ensures Retokenized(Output(lexemes, params)) == Some(Expected(lexemes, params)) <==> NoMerge(lexemes, params)
  {
    if lexemes != [] {
      hide LexNext, Retokenized, Merges, NoMerge, Lexed;
      LexedStep(lexemes);
      NoMergeStep(lexemes, params);
      Compositional(lexemes[1..], params);
      if IsParam(lexemes[0]) {
        ParamStep(lexemes, params);
      } else {
        PlainStep(lexemes, params);
      }
    }
  }

  /* ----- A text where a NULL merges ----- */

  /** A word; a first letter before x keeps it from being the start of a blob. */
  predicate IsPlainWord(word: string) {
    && word != "" && ('a' <= word[0] <= 'w' || 'A' <= word[0] <= 'W')
    && forall i :: 1 <= i < |word| ==> IsIdentifierPart(word[i])
  }

  lemma WordFirst(word: string, w: string)
    requires IsPlainWord(word) && (w == "" || !IsIdentifierPart(w[0]))
    ensures Retokenized(word + w) == After([Tok(Word, word)], Retokenized(w))
  {
    WordPiece(word, w);
    PieceThen(word, Some(Word), w);
  }

  lemma WordPiece(word: string, w: string)
    requires IsPlainWord(word) && (w == "" || !IsIdentifierPart(w[0]))
    ensures LexNext(word + w) == Piece(Some(Word), |word|)
  {
    RunToEnd(word, 1);
    assert word + "" == word;
    SpanLocal(word, "", w, 1, IdentifierParts);
    Shared(word, "", w, 0);
  }

  lemma NoToks()
    ensures Retokenized("") == Some([])
  {
  }

  lemma NameLexes(name: string)
    requires name != "" && forall i :: 0 <= i < |name| ==> IsIdentifierPart(name[i])
    ensures Lexed([Lexeme(Some(Parameter), ":" + name)])
  {
    var u := ":" + name;
    RunToEnd(u, 2);
    assert LexNext(u) == Piece(Some(Parameter), |u|);
    assert u + "" == u;
    NothingLexed();
    LexedPrepend(Lexeme(Some(Parameter), u), []);
    assert [Lexeme(Some(Parameter), u)] == [Lexeme(Some(Parameter), u)] + [];
  }

  lemma NothingLexed()
    ensures Lexed([])
  {
  }

  lemma LexedPrepend(l: Lexeme, rest: seq<Lexeme>)
    requires l.text != "" && LexNext(l.text + Join(rest)) == Piece(l.kind, |l.text|) && Lexed(rest)
    ensures Lexed([l] + rest)
  {
    hide LexNext;
    var all, s := [l] + rest, l.text + Join(rest);
    assert all[1..] == rest;
    assert s[|l.text|..] == Join(rest) && s[..|l.text|] == l.text;
  }

  /** A NULL filled in directly after a word makes one word with it. */
  lemma NullMerges(word: string, name: string)
    requires IsPlainWord(word) && name != "" && forall i :: 0 <= i < |name| ==> IsIdentifierPart(name[i])
    ensures var lexemes, params := [Lexeme(Some(Word), word), Lexeme(Some(Parameter), ":" + name)], map[name := Null];
            && Lexed(lexemes) && AllNamed(lexemes, params) && Output(lexemes, params) == word + "NULL"
            && Retokenized(word + "NULL") == Some([Tok(Word, word + "NULL")]) != Some(Expected(lexemes, params))
  {
    hide LexNext, Retokenized;
    var first, second := Lexeme(Some(Word), word), Lexeme(Some(Parameter), ":" + name);
    var lexemes, params := [first, second], map[name := Null];
    NameLexes(name);
    WordPiece(word, Join([second]));
    assert Join([second]) == second.text + Join([]) by {
      assert [second][1..] == [];
    }
    LexedPrepend(first, [second]);
    assert lexemes == [first] + [second];
    assert (":" + name)[1..] == name;
    assert lexemes[1..] == [second] && [second][1..] == [];
    assert Output([second], params) == "NULL" + "";
    assert Merges(lexemes[0], lexemes[1], params);
    Compositional(lexemes, params);
    var one := word + "NULL";
    WordFirst(one, "");
    NoToks();
    assert one + "" == one && [Tok(Word, one)] + [] == [Tok(Word, one)];
  }

  /* ----- What follows for compiled statements ----- */

  /** One step of the splice, for the token that begins a text of pieces. */
  lemma SpliceStep(text: string, lexemes: seq<Lexeme>, start: nat, cursor: nat, params: SqlParams)
    requires lexemes != [] && cursor <= start
    requires Ordered(TokensOf(lexemes, start), cursor, |text|) && FirstProblem(TokensOf(lexemes, start), params) == None
    ensures var l, next := lexemes[0], start + |lexemes[0].text|;
            var rest, cursor' := TokensOf(lexemes[1..], next), if IsParam(l) then next else cursor;
            && (IsParam(l) ==> IsNamed(l.text, params))
            && Ordered(rest, cursor', |text|) && FirstProblem(rest, params) == None
            && (l.kind.Some? ==> next <= |text|)
            && Spliced(text, TokensOf(lexemes, start), cursor, params)
            == (if IsParam(l) then text[cursor..start] + OutputOf(l, params) else "") + Spliced(text, rest, cursor', params)
  {
    hide Replacement;
    var l, next := lexemes[0], start + |lexemes[0].text|;
    var tokens, rest := TokensOf(lexemes, start), TokensOf(lexemes[1..], next);
    OrderedFacts(tokens, cursor, |text|);
    if l.kind.Some? {
      assert tokens[1..] == rest;
    }
  }

  lemma {:induction false} SplicedIsOutput(text: string, lexemes: seq<Lexeme>, start: nat, cursor: nat, params: SqlParams)
    requires cursor <= start <= |text| && text[start..] == Join(lexemes)
    requires Ordered(TokensOf(lexemes, start), cursor, |text|) && FirstProblem(TokensOf(lexemes, start), params) == None
    ensures AllNamed(lexemes, params)
    ensures Spliced(text, TokensOf(lexemes, start), cursor, params) == text[cursor..start] + Output(lexemes, params)
    decreases |lexemes|
  {
    if lexemes == [] {
      assert text[cursor..] == text[cursor..start] + text[start..];
    } else {
      hide Ordered, FirstProblem, Spliced, TokensOf, IsNamed, Replacement;
      var l, rest, next := lexemes[0], lexemes[1..], start + |lexemes[0].text|;
      SlicePiece(text, start, cursor, l.text, Join(rest));
      SpliceStep(text, lexemes, start, cursor, params);
      SplicedIsOutput(text, rest, next, if IsParam(l) then next else cursor, params);
      NamedPrepend(lexemes, params);
      var front, tail := text[cursor..start], Output(rest, params);
      Reassociate(front, OutputOf(l, params), tail);
    }
  }

  lemma SlicePiece(text: string, start: nat, cursor: nat, u: string, r: string)
    requires cursor <= start <= |text| && text[start..] == u + r
    ensures start + |u| <= |text| && text[start + |u|..] == r
    ensures text[cursor..start + |u|] == text[cursor..start] + u
    ensures text[start + |u|..start + |u|] == ""
  {
    var next := start + |u|;
    assert text[next..] == text[start..][|u|..] == r;
    assert text[start..next] == text[start..][..|u|] == u;
    assert text[cursor..next] == text[cursor..start] + text[start..next];
  }

  lemma Reassociate(a: string, b: string, c: string)
    ensures a + b + ("" + c) == a + (b + c) && "" + (a + b + c) == a + (b + c)
  {
    assert "" + c == c;
    assert a + b + c == a + (b + c);
    assert "" + (a + b + c) == a + b + c;
  }

  lemma NamedPrepend(lexemes: seq<Lexeme>, params: SqlParams)
    requires lexemes != [] && (IsParam(lexemes[0]) ==> IsNamed(lexemes[0].text, params)) && AllNamed(lexemes[1..], params)
    ensures AllNamed(lexemes, params)
  {
    hide IsNamed;
    forall i | 0 <= i < |lexemes| && IsParam(lexemes[i])
      ensures IsNamed(lexemes[i].text, params)
    {
      assert i > 0 ==> lexemes[i] == lexemes[1..][i - 1];
    }
  }

  lemma {:induction false} LexedAll(s: string)
    requires Lexemes(s).Some?
    ensures Lexed(Lexemes(s).value)
  {
  }

  /** How many parameters a token stream has, and whether each is an anonymous placeholder. */
  function Placeholders(toks: seq<Tok>): nat {
    if toks == [] then 0 else (if toks[0].kind == Parameter then 1 else 0) + Placeholders(toks[1..])
  }

  predicate OnlyAnonymous(toks: seq<Tok>) {
    forall i :: 0 <= i < |toks| && toks[i].kind == Parameter ==> toks[i].text == "?"
  }

  lemma {:induction false} PlaceholdersAppend(a: seq<Tok>, b: seq<Tok>)
    ensures Placeholders(a + b) == Placeholders(a) + Placeholders(b)
    ensures OnlyAnonymous(a + b) <==> OnlyAnonymous(a) && OnlyAnonymous(b)
  {
    assert forall i :: 0 <= i < |a| ==> (a + b)[i] == a[i];
    assert forall i :: 0 <= i < |b| ==> (a + b)[|a| + i] == b[i];
    if a == [] {
      assert a + b == b;
    } else {
      assert (a + b)[1..] == a[1..] + b;
      PlaceholdersAppend(a[1..], b);
    }
  }

  lemma {:induction false} MarkPlaceholders(n: nat)
    requires n > 0
    ensures Placeholders(MarkToks(n)) == n && OnlyAnonymous(MarkToks(n))
  {
    if n > 1 {
      MarkPlaceholders(n - 1);
      PlaceholdersAppend([Tok(Parameter, "?"), Tok(Punctuation, ",")], MarkToks(n - 1));
    }
  }

  lemma ValuePlaceholders(value: SqlValue)
    ensures Placeholders(ValueToks(value)) == |Bound(value)| && OnlyAnonymous(ValueToks(value))
  {
    if value == List([]) {
      var a, b := [Tok(Word, "SELECT"), Tok(Word, "NULL")], [Tok(Word, "WHERE"), Tok(Number, "0")];
      PlaceholdersAppend(a, b);
      assert a + b == ValueToks(value);
      assert Placeholders(a[1..]) == 0 && Placeholders(b[1..]) == 0;
    } else if value.List? {
      MarkPlaceholders(|value.items|);
    }
  }

  lemma {:induction false} ExpectedPlaceholders(lexemes: seq<Lexeme>, start: nat, params: SqlParams)
    requires AllNamed(lexemes, params) && FirstProblem(TokensOf(lexemes, start), params) == None
    ensures Placeholders(Expected(lexemes, params)) == |BoundBy(TokensOf(lexemes, start), params)|
    ensures OnlyAnonymous(Expected(lexemes, params))
    decreases |lexemes|
  {
    if lexemes != [] {
      hide ValueToks, Bound, IsNamed;
      var l, rest, next := lexemes[0], lexemes[1..], start + |lexemes[0].text|;
      NamedStep(lexemes, params);
      if l.kind.Some? {
        assert TokensOf(lexemes, start)[1..] == TokensOf(rest, next);
      }
      ExpectedPlaceholders(rest, next, params);
      PlaceholdersAppend(ExpectedOf(l, params), Expected(rest, params));
      if IsParam(l) {
        ValuePlaceholders(ValueOf(l.text, params));
      }
    }
  }

  /**
   * A statement sql() accepts lexes to the source tokens with the parameters replaced whenever nothing
   * merges; it then has one anonymous placeholder per bound value and no other parameter.
   */
  lemma CompiledStatement(text: string, params: SqlParams)
    requires Compile(text, params).Statement?
    ensures Lexemes(text).Some? && AllNamed(Lexemes(text).value, params)
    ensures var ls, r := Lexemes(text).value, Compile(text, params);
            && (Retokenized(r.sql) == Some(Expected(ls, params)) <==> NoMerge(ls, params))
            && (NoMerge(ls, params) ==>
                  && Retokenized(r.sql).Some?
                  && Placeholders(Retokenized(r.sql).value) == |r.params|
                  && OnlyAnonymous(Retokenized(r.sql).value))
  {
    hide LexNext, Retokenized, NoMerge, Placeholders, OnlyAnonymous, IsNamed, IsParameterName;
    var ls := Lexemes(text).value;
    TokensOrdered(ls, 0);
    assert text[0..] == text == Join(ls);
    LexedAll(text);
    SplicedIsOutput(text, ls, 0, 0, params);
    assert text[0..0] + Output(ls, params) == Output(ls, params);
    Compositional(ls, params);
    ExpectedPlaceholders(ls, 0, params);
  }

  /** Strings and non-empty lists never merge with anything. */
  lemma PlaceholdersNeverMerge(lexemes: seq<Lexeme>, params: SqlParams)
    requires AllNamed(lexemes, params)
    requires forall i :: 0 <= i < |lexemes| && IsParam(lexemes[i]) ==> !IsWordy(ValueOf(lexemes[i].text, params))
    ensures NoMerge(lexemes, params)
  {
  }

  /** The compiled text depends on the shapes of the values alone. */
  predicate SameShape(a: SqlValue, b: SqlValue) {
    match (a, b)
    case (Null, Null) => true
    case (Text(_), Text(_)) => true
    case (List(s), List(t)) => |s| == |t|
    case _ => false
  }

  lemma {:induction false} ShapeDecidesText(lexemes: seq<Lexeme>, p: SqlParams, q: SqlParams)
    requires AllNamed(lexemes, p) && AllNamed(lexemes, q)
    requires forall name :: name in p && name in q ==> SameShape(p[name], q[name])
    ensures Output(lexemes, p) == Output(lexemes, q)
  {
    if lexemes != [] {
      NamedStep(lexemes, p);
      NamedStep(lexemes, q);
      ShapeDecidesText(lexemes[1..], p, q);
    }
  }
}
