/**
 * packages/db/src/limits.ts and sql-lexer.ts: statements that change an append-only table, or drop its
 * triggers, and are accepted because a string literal names it.
 */
module SqlLiterals {
  import opened Wrappers
  import opened Casing
  import opened SqlLexer
  import opened SqlLocality
  import opened SqlCompositional
  import opened SqlSplit
  import opened SqlPieces
  import opened SqlTargets
  import opened SqlLimits
  import opened SqlNames

  /* ----- Tokens of a text ----- */

  lemma WordSpaceFirst(word: string, w: string)
    requires IsPlainWord(word)
    ensures Retokenized(word + (" " + w)) == After([Tok(Word, word)], Retokenized(w))
  {
    hide Retokenized, IsPlainWord;
    WordFirst(word, " " + w);
    SpaceThen(w);
  }

  lemma {:induction false} ScanToClose(s: string, i: nat, n: nat, quote: char)
    requires i <= n < |s| && s[n] == quote && !At(s, n + 1, quote)
    requires forall k :: i <= k < n ==> s[k] != quote
    ensures ScanQuoted(s, i, quote) == Some(n + 1)
    decreases n - i
  {
    if i < n {
      ScanToClose(s, i + 1, n, quote);
    }
  }

  function InQuotes(t: string): string {
    "'" + t + "'"
  }

  lemma LiteralFirst(t: string, w: string)
    requires '\'' !in t && !At(w, 0, '\'')
    ensures Retokenized(InQuotes(t) + w) == After([Tok(Literal, InQuotes(t))], Retokenized(w))
  {
    hide Retokenized;
    var u := InQuotes(t);
    var s := u + w;
    assert forall k :: 1 <= k < |u| - 1 ==> s[k] == t[k - 1];
    assert s[|u| - 1] == '\'' && s[0] == '\'';
    Beyond(u, w, 0);
    ScanToClose(s, 1, |u| - 1, '\'');
    PieceThen(u, Some(Literal), w);
  }

  lemma SignFirst(sign: char, w: string)
    requires sign in {'.', '='} && !DigitAt(w, 0)
    ensures Retokenized([sign] + w) == After([Tok(Punctuation, [sign])], Retokenized(w))
  {
    hide Retokenized;
    Beyond([sign], w, 0);
    PieceThen([sign], Some(Punctuation), w);
  }

  lemma OneLast()
    ensures Retokenized("1") == Some([Tok(Number, "1")])
  {
    hide Retokenized;
    assert "1" + "" == "1";
    assert Span("1", 0, DigitsOrUnderscore) == 1;
    PieceThen("1", Some(Number), "");
    NoToks();
    assert [Tok(Number, "1")] + [] == [Tok(Number, "1")];
  }

  /** The tokens, but for their positions. */
  ghost predicate Are(tokens: seq<Token>, toks: seq<Tok>) {
    |tokens| == |toks| && forall i :: 0 <= i < |toks| ==> tokens[i].kind == toks[i].kind && tokens[i].text == toks[i].text
  }

  lemma {:induction false} TokensAreToks(lexemes: seq<Lexeme>, start: nat)
    ensures Are(TokensOf(lexemes, start), Toks(lexemes))
  {
    if lexemes != [] {
      TokensAreToks(lexemes[1..], start + |lexemes[0].text|);
    }
  }

  /* ----- One statement with one form ----- */

  const FORM_WORDS := {"INSERT", "REPLACE", "UPDATE", "DELETE", "DROP", "ALTER"}

  /** One statement without parameters whose only write form, if any, starts it. */
  ghost predicate IsSimple(tokens: seq<Token>) {
    && tokens != [] && !WordAt(tokens, 0, CONTROL_WORDS)
    && (forall i :: 0 <= i < |tokens| ==> tokens[i].kind !in {Semicolon, Parameter})
    && (forall i :: 1 <= i < |tokens| ==> !WordAt(tokens, i, FORM_WORDS))
  }

  lemma {:induction false} NoSemicolonNoEnd(tokens: seq<Token>, from: nat)
    requires from <= |tokens| && forall i :: 0 <= i < |tokens| ==> tokens[i].kind != Semicolon
    ensures FirstEnd(tokens, from) == |tokens|
    decreases |tokens| - from
  {
    if from < |tokens| {
      NoSemicolonNoEnd(tokens, from + 1);
    }
  }

  lemma {:induction false} NoParameters(tokens: seq<Token>)
    requires forall i :: 0 <= i < |tokens| ==> tokens[i].kind != Parameter
    ensures CountAnonymous(tokens) == 0
  {
    if tokens != [] {
      NoParameters(tokens[..|tokens| - 1]);
    }
  }

  lemma OneStatement(tokens: seq<Token>)
    requires IsSimple(tokens)
    ensures Statements(tokens) == [tokens] && Flat([tokens]) == tokens
  {
    hide Statements, InBody;
    SplitsAtEnds(tokens);
    NoSemicolonNoEnd(tokens, 0);
    assert tokens[..|tokens|] == tokens;
    assert [tokens][..0] == [];
    assert [] + tokens == tokens;
  }

  /** No form starts after the first token. */
  lemma FormStartsIt(tokens: seq<Token>, i: nat, operation: WriteOperation, j: nat)
    requires IsSimple(tokens) && Writes(tokens, i, operation, j)
    ensures i == 0
  {
    hide LatestInsert, Upper;
    assert WordAt(tokens, i, FORM_WORDS);
  }

  /** A simple statement is accepted exactly when the name its form gives is not that of a protected table. */
  lemma SimpleFits(sql: string, tokens: seq<Token>, tables: seq<string>, operation: WriteOperation, j: nat)
    requires ByteLength(sql) <= MAX_SQL_BYTES && Tokens(sql) == Some(tokens) && IsSimple(tokens)
    requires forall op, k: nat :: Writes(tokens, 0, op, k) <==> op == operation && k == j
    ensures Fits(Statement(sql, []), tables) <==> Passes(operation, ReadName(tokens, j, None), tables)
    ensures StatementsOf(sql) == [tokens] && Flat([tokens]) == tokens
  {
    hide ByteLength, Tokens, Statements, WordAt, Writes, ReadName, TargetsIn, TouchesProtected, Flat;
    OneStatement(tokens);
    NoParameters(tokens);
    var targets := TargetsIn(tokens, |tokens|).targets;
    forall target: WriteTarget
      ensures target in targets <==>
              target.name != "" && target.operation == operation && ReadName(tokens, j, None) == Some(target.name)
    {
      TargetsFound(tokens, |tokens|, target);
      forall i: nat, k: nat | Writes(tokens, i, target.operation, k)
        ensures i == 0 && k == j && target.operation == operation
      {
        FormStartsIt(tokens, i, target.operation, k);
      }
      assert Writes(tokens, 0, operation, j);
    }
    var s, recorded := Statement(sql, []), ReadName(tokens, j, None);
    assert Fits(s, tables) <==> forall i :: 0 <= i < |targets| ==> !TouchesProtected(targets[i], tables);
    if recorded.Some? && recorded.value != "" {
      assert WriteTarget(operation, recorded.value) in targets;
    }
    assert forall i :: 0 <= i < |targets| ==> targets[i] in targets;
  }

  /* ----- A table under a string literal ----- */

  const ASSIGNMENT := " SET a = 1"
  const ASSIGNMENT_TOKS := [Tok(Word, "SET"), Tok(Word, "a"), Tok(Punctuation, "="), Tok(Number, "1")]

  /** The table under a string literal, alone or after the name of its schema. */
  function TableText(qualified: bool, table: string): string {
    (if qualified then "main." else "") + InQuotes(table)
  }

  function TableToks(qualified: bool, table: string): seq<Tok> {
    (if qualified then [Tok(Word, "main"), Tok(Punctuation, ".")] else []) + [Tok(Literal, InQuotes(table))]
  }

  function Update(qualified: bool, table: string): string {
    "UPDATE" + (" " + (TableText(qualified, table) + ASSIGNMENT))
  }

  function UpdateToks(qualified: bool, table: string): seq<Tok> {
    [Tok(Word, "UPDATE")] + (TableToks(qualified, table) + ASSIGNMENT_TOKS)
  }

  function DropTrigger(trigger: string): string {
    "DROP" + (" " + ("TRIGGER" + (" " + TableText(true, trigger))))
  }

  function DropTriggerToks(trigger: string): seq<Tok> {
    [Tok(Word, "DROP")] + ([Tok(Word, "TRIGGER")] + TableToks(true, trigger))
  }

  lemma AfterSome(front: seq<Tok>, rest: seq<Tok>)
    ensures After(front, Some(rest)) == Some(front + rest)
  {
  }

  lemma AssignmentLexes()
    ensures Retokenized(ASSIGNMENT) == Some(ASSIGNMENT_TOKS)
  {
    hide Retokenized;
    var number := [Tok(Number, "1")];
    OneLast();
    SpaceThen("1");
    var one := " " + "1";
    SignFirst('=', one);
    AfterSome([Tok(Punctuation, "=")], number);
    var equals := ['='] + one;
    WordSpaceFirst("a", equals);
    AfterSome([Tok(Word, "a")], [Tok(Punctuation, "=")] + number);
    var column := "a" + (" " + equals);
    WordSpaceFirst("SET", column);
    AfterSome([Tok(Word, "SET")], [Tok(Word, "a")] + ([Tok(Punctuation, "=")] + number));
    SpaceThen("SET" + (" " + column));
    assert ASSIGNMENT == " " + ("SET" + (" " + column));
    assert ASSIGNMENT_TOKS == [Tok(Word, "SET")] + ([Tok(Word, "a")] + ([Tok(Punctuation, "=")] + number));
  }

  lemma TableLexes(qualified: bool, table: string, w: string, rest: seq<Tok>)
    requires '\'' !in table && !At(w, 0, '\'') && Retokenized(w) == Some(rest)
    ensures Retokenized(TableText(qualified, table) + w) == Some(TableToks(qualified, table) + rest)
  {
    hide Retokenized;
    LiteralFirst(table, w);
    var literal := [Tok(Literal, InQuotes(table))];
    AfterSome(literal, rest);
    var quoted := InQuotes(table) + w;
    if qualified {
      SignFirst('.', quoted);
      AfterSome([Tok(Punctuation, ".")], literal + rest);
      WordFirst("main", ['.'] + quoted);
      AfterSome([Tok(Word, "main")], [Tok(Punctuation, ".")] + (literal + rest));
      assert TableText(qualified, table) + w == "main" + (['.'] + quoted);
      assert TableToks(qualified, table) + rest == [Tok(Word, "main")] + ([Tok(Punctuation, ".")] + (literal + rest));
    } else {
      assert TableText(qualified, table) + w == quoted;
      assert TableToks(qualified, table) + rest == literal + rest;
    }
  }

  lemma UpdateLexes(qualified: bool, table: string)
    requires '\'' !in table
    ensures Retokenized(Update(qualified, table)) == Some(UpdateToks(qualified, table))
  {
    hide Retokenized, TableText, TableToks;
    AssignmentLexes();
    TableLexes(qualified, table, ASSIGNMENT, ASSIGNMENT_TOKS);
    WordSpaceFirst("UPDATE", TableText(qualified, table) + ASSIGNMENT);
    AfterSome([Tok(Word, "UPDATE")], TableToks(qualified, table) + ASSIGNMENT_TOKS);
  }

  lemma DropTriggerLexes(trigger: string)
    requires '\'' !in trigger
    ensures Retokenized(DropTrigger(trigger)) == Some(DropTriggerToks(trigger))
  {
    hide Retokenized, TableText, TableToks;
    NoToks();
    TableLexes(true, trigger, "", []);
    assert TableText(true, trigger) + "" == TableText(true, trigger);
    assert TableToks(true, trigger) + [] == TableToks(true, trigger);
    WordSpaceFirst("TRIGGER", TableText(true, trigger));
    AfterSome([Tok(Word, "TRIGGER")], TableToks(true, trigger));
    WordSpaceFirst("DROP", "TRIGGER" + (" " + TableText(true, trigger)));
    AfterSome([Tok(Word, "DROP")], [Tok(Word, "TRIGGER")] + TableToks(true, trigger));
  }

  lemma LexedAs(sql: string, toks: seq<Tok>)
    requires Retokenized(sql) == Some(toks)
    ensures Tokens(sql).Some? && Are(Tokens(sql).value, toks)
  {
    TokensAreToks(Lexemes(sql).value, 0);
  }

  /* ----- Words in upper case ----- */

  lemma {:induction false} UpperIs(s: string, upper: string)
    requires |s| == |upper| && forall i :: 0 <= i < |s| ==> UpperChar(s[i]) == [upper[i]]
    ensures Upper(s) == upper
  {
    if s != "" {
      UpperIs(s[1..], upper[1..]);
      assert [upper[0]] + upper[1..] == upper;
    }
  }

  lemma UpperWords()
    ensures Upper("UPDATE") == "UPDATE" && Upper("SET") == "SET" && Upper("DROP") == "DROP" && Upper("TRIGGER") == "TRIGGER"
    ensures Upper("a") == "A" && Upper("main") == "MAIN"
  {
    hide Upper;
    UpperIs("UPDATE", "UPDATE");
    UpperIs("SET", "SET");
    UpperIs("DROP", "DROP");
    UpperIs("TRIGGER", "TRIGGER");
    UpperIs("a", "A");
    UpperIs("main", "MAIN");
  }

  lemma LowerMain()
    ensures Lower("main") == "main"
  {
    LowerKeeps("main");
  }

  lemma {:induction false} UndoubledPlain(t: string, quote: char)
    requires quote !in t
    ensures Undoubled(t, quote) == t
  {
    if t != "" {
      UndoubledPlain(t[1..], quote);
      assert [t[0]] + t[1..] == t;
    }
  }

  lemma LiteralName(token: Token, t: string)
    requires token.kind == Literal && token.text == InQuotes(t) && '\'' !in t
    ensures NameOf(token) == Lower(t)
  {
    UndoubledPlain(t, '\'');
    assert token.text[1..|token.text| - 1] == t;
  }

  /* ----- They are accepted ----- */

  /** The whole name of the table: a literal, alone or after `main.`. */
  ghost predicate NamesByLiteral(tokens: seq<Token>, j: nat, qualified: bool, table: string) {
    var last := if qualified then j + 2 else j;
    && FullNameAt(tokens, j, last) && last < |tokens| && tokens[last].kind == Literal && tokens[last].text == InQuotes(table)
    && (qualified ==> tokens[j].kind == Word && tokens[j].text == "main")
  }

  lemma UpdateShape(tokens: seq<Token>, qualified: bool, table: string)
    requires Are(tokens, UpdateToks(qualified, table))
    ensures IsSimple(tokens) && forall op, k: nat :: Writes(tokens, 0, op, k) <==> op == UpdateOp && k == 1
    ensures NamesByLiteral(tokens, 1, qualified, table)
  {
    hide Upper;
    UpperWords();
    var last := if qualified then 3 else 1;
    assert FullParts(tokens, last, last);
  }

  lemma DropTriggerShape(tokens: seq<Token>, trigger: string)
    requires Are(tokens, DropTriggerToks(trigger))
    ensures IsSimple(tokens) && forall op, k: nat :: Writes(tokens, 0, op, k) <==> op == DropTriggerOp && k == 2
    ensures NamesByLiteral(tokens, 2, true, trigger)
  {
    hide Upper;
    UpperWords();
    assert FullParts(tokens, 4, 4);
  }

  /** Of a name in a literal the check sees the schema at most. */
  lemma SchemaRecorded(tokens: seq<Token>, j: nat, qualified: bool, table: string)
    requires NamesByLiteral(tokens, j, qualified, table) && '\'' !in table
    ensures ReadName(tokens, j, None) == if qualified then Some("main") else None
    ensures var last := if qualified then j + 2 else j;
            last < |tokens| && NameOf(tokens[last]) == Lower(table) && FirstLiteral(tokens, j, last) <= last
  {
    hide Lower;
    var last := if qualified then j + 2 else j;
    LiteralName(tokens[last], table);
    LowerMain();
    RecordedStopsAtLiteral(tokens, j, last, None);
  }

  lemma LowerEmpty(s: string)
    ensures Lower(s) == "" <==> s == ""
  {
  }

  /**
   * Updating a table under a string literal is always accepted, and after its schema unless some append-only
   * table is named main: so an accepted statement can change an append-only table.
   */
  lemma LiteralUpdateAccepted(qualified: bool, table: string, tables: seq<string>)
    requires '\'' !in table && ByteLength(Update(qualified, table)) <= MAX_SQL_BYTES
    ensures Fits(Statement(Update(qualified, table), []), tables)
            <==> !qualified || forall i :: 0 <= i < |tables| ==> Lower(tables[i]) != "main"
    ensures Tokens(Update(qualified, table)).Some?
    ensures table != "" && table in tables ==> !Protected(Flat(StatementsOf(Update(qualified, table))), tables)
  {
    hide Tokens, Lower, ByteLength, Statements, Flat, Update, UpdateToks, Are, Retokenized, IsSimple, Writes, NamesByLiteral, ReadName;
    var sql := Update(qualified, table);
    UpdateLexes(qualified, table);
    LexedAs(sql, UpdateToks(qualified, table));
    var tokens := Tokens(sql).value;
    UpdateShape(tokens, qualified, table);
    SimpleFits(sql, tokens, tables, UpdateOp, 1);
    SchemaRecorded(tokens, 1, qualified, table);
    if table != "" && table in tables {
      LowerEmpty(table);
      LiteralTouches(tokens, UpdateOp, 1, qualified, table, tables);
    }
  }

  lemma LiteralTouches(tokens: seq<Token>, operation: WriteOperation, j: nat, qualified: bool, table: string, tables: seq<string>)
    requires Writes(tokens, 0, operation, j) && NamesByLiteral(tokens, j, qualified, table) && '\'' !in table && table != ""
    requires TouchesProtected(WriteTarget(operation, Lower(table)), tables)
    ensures !Protected(tokens, tables)
  {
    hide Writes, Lower, FullNameAt, TouchesProtected, ReadName;
    LowerEmpty(table);
    SchemaRecorded(tokens, j, qualified, table);
  }

  /** Dropping a trigger under a string literal after its schema is always accepted. */
  lemma LiteralDropAccepted(trigger: string, tables: seq<string>)
    requires '\'' !in trigger && ByteLength(DropTrigger(trigger)) <= MAX_SQL_BYTES
    ensures Fits(Statement(DropTrigger(trigger), []), tables)
    ensures (exists i :: 0 <= i < |tables| && Lower(tables[i]) + "_" <= Lower(trigger)) ==>
              !Protected(Flat(StatementsOf(DropTrigger(trigger))), tables)
  {
    hide Tokens, Lower, ByteLength, Statements, Flat, DropTrigger, DropTriggerToks, Are, Retokenized, IsSimple, Writes,
         NamesByLiteral, ReadName;
    var sql := DropTrigger(trigger);
    DropTriggerLexes(trigger);
    LexedAs(sql, DropTriggerToks(trigger));
    var tokens := Tokens(sql).value;
    DropTriggerShape(tokens, trigger);
    SchemaRecorded(tokens, 2, true, trigger);
    MainIsNoTrigger(tables);
    SimpleFits(sql, tokens, tables, DropTriggerOp, 2);
    LowerEmpty(trigger);
    if exists i :: 0 <= i < |tables| && Lower(tables[i]) + "_" <= Lower(trigger) {
      LiteralTouches(tokens, DropTriggerOp, 2, true, trigger, tables);
    }
  }

  lemma MainIsNoTrigger(tables: seq<string>)
    ensures Passes(DropTriggerOp, Some("main"), tables)
  {
    hide Lower;
    forall i | 0 <= i < |tables|
      ensures !(Lower(tables[i]) + "_" <= "main")
    {
      if Lower(tables[i]) + "_" <= "main" {
        assert "main"[|Lower(tables[i])|] == '_';
      }
    }
  }

  /* ----- The table the repository protects ----- */

  const ADMIN_EVENTS := "beta_admin_events"

  lemma {:induction false} ShortText(s: string)
    ensures ByteLength(s) <= 4 * |s|
  {
    if s != "" {
      ShortText(s[1..]);
    }
  }

  /** The default append-only table can be updated under a string literal, with or without its schema. */
  lemma AdminEventsUpdated(qualified: bool)
    ensures var s := Statement(Update(qualified, ADMIN_EVENTS), []);
            && Fits(s, [ADMIN_EVENTS])
            && !Protected(Flat(StatementsOf(s.sql)), [ADMIN_EVENTS])
  {
    hide Fits, Protected, StatementsOf, Lower, ByteLength;
    assert ADMIN_EVENTS[4] == '_' && '\'' !in ADMIN_EVENTS;
    LowerKeeps(ADMIN_EVENTS);
    ShortText(Update(qualified, ADMIN_EVENTS));
    LiteralUpdateAccepted(qualified, ADMIN_EVENTS, [ADMIN_EVENTS]);
  }
}
