/** packages/db/src/limits.ts: which statements and batches are accepted, which only read, and why one is refused. */
module SqlVerdicts {
  import opened Wrappers
  import opened Casing
  import opened SqlLexer
  import opened SqlSplit
  import opened SqlTargets
  import opened SqlLimits

  /* ----- Keywords ----- */

  /** The same letters, whatever their case; a keyword is written in capitals. */
  predicate SameLetters(text: string, keyword: string) {
    |text| == |keyword| && forall i :: 0 <= i < |text| ==> text[i] == keyword[i] || text[i] as int == keyword[i] as int + 32
  }

  predicate IsCapitals(keyword: string) {
    forall i :: 0 <= i < |keyword| ==> 'A' <= keyword[i] <= 'Z'
  }

  lemma LetterMeans(c: char, capital: char)
    requires c as int < 0x80 && 'A' <= capital <= 'Z'
    ensures |UpperChar(c)| == 1
    ensures UpperChar(c) == [capital] <==> c == capital || c as int == capital as int + 32
  {
  }

  lemma SameLettersLater(text: string, keyword: string)
    requires text != "" && keyword != ""
    ensures SameLetters(text, keyword) <==>
            (text[0] == keyword[0] || text[0] as int == keyword[0] as int + 32) && SameLetters(text[1..], keyword[1..])
  {
    if SameLetters(text[1..], keyword[1..]) {
      assert forall i :: 0 < i < |text| ==> text[i] == text[1..][i - 1] && keyword[i] == keyword[1..][i - 1];
    }
  }

  lemma {:induction false} UpperMeans(text: string, keyword: string)
    requires IsAscii(text) && IsCapitals(keyword)
    ensures Upper(text) == keyword <==> SameLetters(text, keyword)
  {
    hide UpperChar, SameLetters;
    if text == "" || keyword == "" {
      NoLetters(text, keyword);
    } else {
      LetterMeans(text[0], keyword[0]);
      SameLettersLater(text, keyword);
      UpperMeans(text[1..], keyword[1..]);
      assert Upper(text)[1..] == Upper(text[1..]);
      assert keyword == [keyword[0]] + keyword[1..];
    }
  }

  lemma NoLetters(text: string, keyword: string)
    requires IsAscii(text) && (text == "" || keyword == "")
    ensures Upper(text) == keyword <==> SameLetters(text, keyword)
  {
  }

  ghost predicate Keyword(t: Token, keyword: string) {
    t.kind == Word && Upper(t.text) == keyword
  }

  /** A word of ASCII letters is a keyword when it has the letters of that keyword. */
  lemma KeywordMeans(t: Token, keyword: string)
    requires IsAscii(t.text) && IsCapitals(keyword)
    ensures IsWord(t, {keyword}) <==> t.kind == Word && SameLetters(t.text, keyword)
  {
    UpperMeans(t.text, keyword);
  }

  /* ----- Read-only statements ----- */

  /** A word that writes; `replace(` is a function. */
  ghost predicate WritesAt(stmt: seq<Token>, i: int)
    requires 0 <= i < |stmt|
  {
    || Keyword(stmt[i], "INSERT") || Keyword(stmt[i], "UPDATE") || Keyword(stmt[i], "DELETE") || Keyword(stmt[i], "RETURNING")
    || (Keyword(stmt[i], "REPLACE") && !(i + 1 < |stmt| && stmt[i + 1].text == "("))
  }

  /** SELECT, VALUES, WITH or EXPLAIN, and nowhere a word that writes. */
  ghost predicate OnlyReads(stmt: seq<Token>) {
    && stmt != []
    && (Keyword(stmt[0], "SELECT") || Keyword(stmt[0], "VALUES") || Keyword(stmt[0], "WITH") || Keyword(stmt[0], "EXPLAIN"))
    && forall i :: 0 <= i < |stmt| ==> !WritesAt(stmt, i)
  }

  /** The text is one statement, of these tokens. */
  ghost predicate IsOne(sql: string, stmt: seq<Token>) {
    Tokens(sql).Some? && Statements(Tokens(sql).value) == [stmt]
  }

  lemma FlatOne(stmt: seq<Token>)
    ensures Flat([stmt]) == stmt
  {
    assert Flat([stmt]) == Flat([stmt][..0]) + stmt;
  }

  /** A statement is judged read-only exactly when it is one that reads and has no word that writes. */
  lemma ReadsExactly(s: Statement)
    ensures Reads(s) <==> exists stmt: seq<Token> :: IsOne(s.sql, stmt) && OnlyReads(stmt)
  {
    hide Upper, Tokens, Statements, Flat;
    if Tokens(s.sql).Some? && |StatementsOf(s.sql)| == 1 {
      var stmt := StatementsOf(s.sql)[0];
      assert StatementsOf(s.sql) == [stmt] && IsOne(s.sql, stmt);
      FlatOne(stmt);
      ReadingMeans(stmt);
    }
  }

  lemma WriteWordMeans(stmt: seq<Token>, i: nat)
    requires i < |stmt|
    ensures IsWriteWord(stmt, i) <==> WritesAt(stmt, i)
  {
    hide Upper;
  }

  lemma ReadingMeans(stmt: seq<Token>)
    ensures IsReadOnly([stmt]) <==> OnlyReads(stmt)
  {
    hide Flat, IsWriteWord, WritesAt, Upper;
    FlatOne(stmt);
    LeadMeans(stmt);
    forall i | 0 <= i < |stmt|
      ensures IsWriteWord(stmt, i) <==> WritesAt(stmt, i)
    {
      WriteWordMeans(stmt, i);
    }
  }

  lemma LeadMeans(stmt: seq<Token>)
    ensures WordAt(stmt, 0, {"SELECT", "VALUES", "WITH", "EXPLAIN"}) <==>
            && stmt != []
            && (Keyword(stmt[0], "SELECT") || Keyword(stmt[0], "VALUES") || Keyword(stmt[0], "WITH") || Keyword(stmt[0], "EXPLAIN"))
  {
    hide Upper;
  }

  /* ----- Accepted statements ----- */

  ghost function Parameters(stmt: seq<Token>): set<int> {
    set i | 0 <= i < |stmt| && stmt[i].kind == Parameter
  }

  lemma ParametersPush(front: seq<Token>, t: Token)
    ensures Parameters(front + [t]) == if t.kind == Parameter then Parameters(front) + {|front|} else Parameters(front)
  {
    var all := front + [t];
    assert all[|front|] == t && forall i :: 0 <= i < |front| ==> all[i] == front[i];
  }

  lemma {:induction false} CountMeans(stmt: seq<Token>)
    requires forall i :: i in Parameters(stmt) ==> stmt[i].text == "?"
    ensures CountAnonymous(stmt) == |Parameters(stmt)|
  {
    if stmt != [] {
      var n := |stmt| - 1;
      assert stmt == stmt[..n] + [stmt[n]];
      ParametersPush(stmt[..n], stmt[n]);
      CountMeans(stmt[..n]);
    }
  }

  /** An update, delete or the like of an append-only table, or the end of a trigger named after one. */
  ghost predicate Harms(operation: WriteOperation, name: string, tables: seq<string>) {
    exists table :: table in tables &&
      if operation == DropTriggerOp then Lower(table) + "_" <= name else operation != InsertOp && name == Lower(table)
  }

  ghost predicate HarmsSome(stmt: seq<Token>, tables: seq<string>) {
    exists operation, name :: Harms(operation, name, tables) && WritesTo(stmt, operation, name)
  }

  ghost predicate WritesTo(stmt: seq<Token>, operation: WriteOperation, name: string) {
    name != "" && exists i: nat, j: nat :: i < |stmt| && Writes(stmt, i, operation, j) && NameIs(stmt, j, name)
  }

  /** The checks, in their order; a parameter is looked at only when those before it fit. */
  const CHECKS: seq<Problem> :=
    [SqlBytes, TooManyParams, ParamNotText, ValueBytes, UnterminatedText, StatementEmpty, SeveralStatements,
     TransactionControl, NamedParameter, PlaceholderCount, AppendOnlyTable]

  ghost predicate FirstBad(params: seq<Param>, i: int) {
    && 0 <= i < |params| && !(params[i].Text? && ByteLength(params[i].text) <= 2_000_000)
    && forall k :: 0 <= k < i ==> params[k].Text? && ByteLength(params[k].text) <= 2_000_000
  }

  /** The statement fails this check, told from its one list of tokens where there is one. */
  ghost predicate Fails(s: Statement, tables: seq<string>, check: Problem) {
    match check
    case BatchEmpty => false
    case SqlBytes => ByteLength(s.sql) > 100_000
    case TooManyParams => |s.params| > 100
    case ParamNotText => exists i :: FirstBad(s.params, i) && s.params[i].NotText?
    case ValueBytes => exists i :: FirstBad(s.params, i) && s.params[i].Text?
    case UnterminatedText => Tokens(s.sql).None?
    case StatementEmpty => Tokens(s.sql).Some? && Statements(Tokens(s.sql).value) == []
    case SeveralStatements => Tokens(s.sql).Some? && |Statements(Tokens(s.sql).value)| > 1
    case TransactionControl =>
      exists stmt: seq<Token> :: IsOne(s.sql, stmt) && stmt != [] && Controls(stmt[0])
    case NamedParameter =>
      exists stmt: seq<Token> :: IsOne(s.sql, stmt) && exists i :: i in Parameters(stmt) && stmt[i].text != "?"
    case PlaceholderCount =>
      exists stmt: seq<Token> :: IsOne(s.sql, stmt) && |Parameters(stmt)| != |s.params|
    case AppendOnlyTable =>
      exists stmt: seq<Token> :: IsOne(s.sql, stmt) && HarmsSome(stmt, tables)
  }

  ghost predicate Controls(t: Token) {
    || Keyword(t, "BEGIN") || Keyword(t, "COMMIT") || Keyword(t, "END") || Keyword(t, "ROLLBACK")
    || Keyword(t, "SAVEPOINT") || Keyword(t, "RELEASE") || Keyword(t, "ATTACH") || Keyword(t, "DETACH")
  }

  /** The check at `k` is the first that fails. */
  ghost predicate FailsFirst(s: Statement, tables: seq<string>, k: int) {
    0 <= k < |CHECKS| && Fails(s, tables, CHECKS[k]) && forall j :: 0 <= j < k ==> !Fails(s, tables, CHECKS[j])
  }

  /** The statement is refused for the check at `k`, the first that it fails. */
  ghost predicate IsRefusedFor(s: Statement, tables: seq<string>, k: int) {
    FailsFirst(s, tables, k) && ProblemOf(s) == CHECKS[k]
  }

  lemma {:induction false} FirstBadFrom(params: seq<Param>, i: nat) returns (k: nat)
    requires i <= |params| && (forall j :: 0 <= j < i ==> ParamFits(params[j]))
    requires exists j :: i <= j < |params| && !ParamFits(params[j])
    ensures FirstBad(params, k)
    decreases |params| - i
  {
    hide ByteLength;
    if ParamFits(params[i]) {
      k := FirstBadFrom(params, i + 1);
    } else {
      k := i;
    }
  }

  /** Some parameter does not fit exactly when one of the two checks fails; the other one does not. */
  lemma ParamsMean(s: Statement, tables: seq<string>)
    ensures (exists i :: 0 <= i < |s.params| && !ParamFits(s.params[i]))
            <==> Fails(s, tables, ParamNotText) || Fails(s, tables, ValueBytes)
    ensures Fails(s, tables, ParamNotText) ==> ParamProblem(s.params) == ParamNotText
    ensures Fails(s, tables, ValueBytes) ==> ParamProblem(s.params) == ValueBytes
  {
    hide ByteLength, ParamProblem;
    if exists i :: 0 <= i < |s.params| && !ParamFits(s.params[i]) {
      var k := FirstBadFrom(s.params, 0);
      assert FirstBad(s.params, k) && (s.params[k].NotText? || s.params[k].Text?);
    }
    forall i | FirstBad(s.params, i)
      ensures ParamProblem(s.params) == if s.params[i].Text? then ValueBytes else ParamNotText
    {
      ParamProblemAt(s.params, i);
    }
  }

  ghost predicate TouchesSome(stmt: seq<Token>, tables: seq<string>) {
    exists i :: 0 <= i < |TargetsIn(stmt, |stmt|).targets| && TouchesProtected(TargetsIn(stmt, |stmt|).targets[i], tables)
  }

  lemma HarmMeans(stmt: seq<Token>, tables: seq<string>)
    ensures HarmsSome(stmt, tables) <==> TouchesSome(stmt, tables)
  {
    hide Lower, TargetsIn, Writes, NameIs;
    var targets := TargetsIn(stmt, |stmt|).targets;
    if i :| 0 <= i < |targets| && TouchesProtected(targets[i], tables) {
      TargetsAreWrites(stmt, targets[i]);
      TouchMeans(targets[i], tables);
      assert WritesTo(stmt, targets[i].operation, targets[i].name);
    }
    if operation, name :| Harms(operation, name, tables) && WritesTo(stmt, operation, name) {
      TargetsAreWrites(stmt, WriteTarget(operation, name));
      TouchMeans(WriteTarget(operation, name), tables);
    }
  }

  lemma TouchMeans(target: WriteTarget, tables: seq<string>)
    ensures TouchesProtected(target, tables) <==> Harms(target.operation, target.name, tables)
  {
    hide Lower;
    if TouchesProtected(target, tables) {
      var i :| 0 <= i < |tables| && if target.operation == DropTriggerOp then Lower(tables[i]) + "_" <= target.name
                                    else target.operation != InsertOp && Lower(tables[i]) == target.name;
      assert tables[i] in tables;
    }
  }

  lemma ControlMeans(stmt: seq<Token>)
    ensures WordAt(stmt, 0, CONTROL_WORDS) <==> stmt != [] && Controls(stmt[0])
  {
    hide Upper;
  }

  /** What the checks on the tokens of one statement come to. */
  lemma OneMeans(s: Statement, tables: seq<string>, stmt: seq<Token>)
    requires IsOne(s.sql, stmt)
    ensures StatementsOf(s.sql) == [stmt] && Flat([stmt]) == stmt
    ensures Fails(s, tables, TransactionControl) <==> WordAt(stmt, 0, CONTROL_WORDS)
    ensures Fails(s, tables, NamedParameter) <==> !NoOtherParameter(stmt)
    ensures NoOtherParameter(stmt) ==> (Fails(s, tables, PlaceholderCount) <==> CountAnonymous(stmt) != |s.params|)
    ensures Fails(s, tables, AppendOnlyTable) <==> TouchesSome(stmt, tables)
  {
    hide Tokens, Statements, Controls, Flat, CountAnonymous, TouchesSome, HarmsSome, WordAt;
    FlatOne(stmt);
    ControlMeans(stmt);
    HarmMeans(stmt, tables);
    if NoOtherParameter(stmt) {
      CountMeans(stmt);
    } else {
      var i :| 0 <= i < |stmt| && stmt[i].kind == Parameter && stmt[i].text != "?";
      assert i in Parameters(stmt);
    }
  }

  lemma OneOrNot(s: Statement, tables: seq<string>)
    ensures forall check :: check in {TransactionControl, NamedParameter, PlaceholderCount, AppendOnlyTable} ==>
                              Fails(s, tables, check) ==> Tokens(s.sql).Some? && |Statements(Tokens(s.sql).value)| == 1
  {
    hide Tokens, Statements, Controls, HarmsSome, Parameters;
  }

  ghost predicate PassesSize(s: Statement, tables: seq<string>) {
    !Fails(s, tables, SqlBytes) && !Fails(s, tables, TooManyParams) && !Fails(s, tables, ParamNotText) && !Fails(s, tables, ValueBytes)
  }

  ghost predicate PassesText(s: Statement, tables: seq<string>) {
    && !Fails(s, tables, UnterminatedText) && !Fails(s, tables, StatementEmpty) && !Fails(s, tables, SeveralStatements)
    && !Fails(s, tables, TransactionControl) && !Fails(s, tables, NamedParameter) && !Fails(s, tables, PlaceholderCount)
    && !Fails(s, tables, AppendOnlyTable)
  }

  lemma OneFits(s: Statement, tables: seq<string>, stmt: seq<Token>)
    requires IsOne(s.sql, stmt) && ByteLength(s.sql) <= MAX_SQL_BYTES
    ensures SqlFits(s.sql, |s.params|, tables) <==>
            && !Fails(s, tables, TransactionControl) && !Fails(s, tables, NamedParameter)
            && !Fails(s, tables, PlaceholderCount) && !Fails(s, tables, AppendOnlyTable)
  {
    hide Tokens, Statements, Fails, ByteLength, Flat, TouchesSome, WordAt, CountAnonymous, NoOtherParameter, SqlFits;
    OneMeans(s, tables, stmt);
    OneFitsWhen(s, tables, stmt);
  }

  lemma OneFitsWhen(s: Statement, tables: seq<string>, stmt: seq<Token>)
    requires IsOne(s.sql, stmt) && ByteLength(s.sql) <= MAX_SQL_BYTES && Flat([stmt]) == stmt
    ensures SqlFits(s.sql, |s.params|, tables) <==>
            && !WordAt(stmt, 0, CONTROL_WORDS) && NoOtherParameter(stmt) && CountAnonymous(stmt) == |s.params|
            && !TouchesSome(stmt, tables)
  {
    hide Tokens, Statements, ByteLength, Flat, TargetsIn, TouchesProtected, WordAt, CountAnonymous, NoOtherParameter;
    assert Flat(StatementsOf(s.sql)) == stmt;
  }

  lemma TextFits(s: Statement, tables: seq<string>)
    requires ByteLength(s.sql) <= MAX_SQL_BYTES
    ensures SqlFits(s.sql, |s.params|, tables) <==> PassesText(s, tables)
  {
    hide Tokens, Statements, Controls, HarmsSome, Parameters, ByteLength, Flat, TargetsIn, TouchesProtected, WordAt,
         CountAnonymous, NoOtherParameter;
    if Tokens(s.sql).Some? && |StatementsOf(s.sql)| == 1 {
      var stmt := StatementsOf(s.sql)[0];
      assert StatementsOf(s.sql) == [stmt];
      OneFits(s, tables, stmt);
    }
  }

  lemma PassingMeans(s: Statement, tables: seq<string>)
    ensures Fits(s, tables) <==> PassesSize(s, tables) && PassesText(s, tables)
  {
    hide Tokens, Statements, ByteLength, ParamFits, FirstBad, PassesText;
    ParamsMean(s, tables);
    if ByteLength(s.sql) <= MAX_SQL_BYTES {
      TextFits(s, tables);
    }
  }

  /** A problem of the tokens is looked for where the sizes fit. */
  lemma SizeProblem(s: Statement, tables: seq<string>)
    requires !PassesSize(s, tables)
    ensures exists k :: IsRefusedFor(s, tables, k)
  {
    hide ByteLength, ParamProblem, ParamFits, FirstBad, Tokens, Statements, Controls, HarmsSome, Parameters, Flat, WordAt,
         CountAnonymous, NoOtherParameter;
    ParamsMean(s, tables);
    var k := if Fails(s, tables, SqlBytes) then 0 else if Fails(s, tables, TooManyParams) then 1
             else if Fails(s, tables, ParamNotText) then 2 else 3;
    assert IsRefusedFor(s, tables, k);
  }

  lemma TextProblem(s: Statement, tables: seq<string>)
    requires PassesSize(s, tables) && !PassesText(s, tables)
    ensures exists k :: IsRefusedFor(s, tables, k)
  {
    hide ByteLength, ParamProblem, ParamFits, FirstBad, Tokens, Statements, Controls, HarmsSome, Parameters, Flat, WordAt,
         CountAnonymous, NoOtherParameter, TargetsIn, TouchesProtected;
    ParamsMean(s, tables);
    OneOrNot(s, tables);
    if Tokens(s.sql).Some? && |StatementsOf(s.sql)| == 1 {
      assert StatementsOf(s.sql) == [StatementsOf(s.sql)[0]];
      OneMeans(s, tables, StatementsOf(s.sql)[0]);
    }
    var k := if Fails(s, tables, UnterminatedText) then 4 else if Fails(s, tables, StatementEmpty) then 5
             else if Fails(s, tables, SeveralStatements) then 6 else if Fails(s, tables, TransactionControl) then 7
             else if Fails(s, tables, NamedParameter) then 8 else if Fails(s, tables, PlaceholderCount) then 9 else 10;
    assert IsRefusedFor(s, tables, k);
  }

  /**
   * A statement is accepted exactly when it fails no check; otherwise it is refused for the first check in
   * the list that it fails.
   */
  lemma CheckedExactly(s: Statement, tables: seq<string>)
    ensures Fits(s, tables) <==> forall k :: 0 <= k < |CHECKS| ==> !Fails(s, tables, CHECKS[k])
    ensures !Fits(s, tables) ==> exists k :: IsRefusedFor(s, tables, k)
  {
    hide Fits, Fails, ProblemOf;
    PassingMeans(s, tables);
    assert CHECKS[0] == SqlBytes && CHECKS[1] == TooManyParams && CHECKS[2] == ParamNotText && CHECKS[3] == ValueBytes;
    assert CHECKS[4] == UnterminatedText && CHECKS[5] == StatementEmpty && CHECKS[6] == SeveralStatements;
    assert CHECKS[7] == TransactionControl && CHECKS[8] == NamedParameter && CHECKS[9] == PlaceholderCount;
    assert CHECKS[10] == AppendOnlyTable;
    if !PassesSize(s, tables) {
      SizeProblem(s, tables);
    } else if !PassesText(s, tables) {
      TextProblem(s, tables);
    }
  }

  lemma {:induction false} BatchFrom(batch: seq<Statement>, tables: seq<string>, i: nat, k: nat)
    requires i <= k < |batch| && !Fits(batch[k], tables) && forall j :: i <= j < k ==> Fits(batch[j], tables)
    ensures BatchProblem(batch, tables, i) == Refused(ProblemOf(batch[k]), k)
    decreases k - i
  {
    hide Fits, ProblemOf;
    if i < k {
      BatchFrom(batch, tables, i + 1, k);
    }
  }

  /** A batch is refused for the first of its statements that fails a check, or because it is empty. */
  lemma BatchesExactly(batch: seq<Statement>, tables: seq<string>, k: nat)
    ensures BatchVerdict([], tables) == Refused(BatchEmpty, 0)
    ensures BatchVerdict(batch, tables).Accepted? <==> batch != [] && forall i :: 0 <= i < |batch| ==> Fits(batch[i], tables)
    ensures k < |batch| && !Fits(batch[k], tables) && (forall i :: 0 <= i < k ==> Fits(batch[i], tables)) ==>
              BatchVerdict(batch, tables) == Refused(ProblemOf(batch[k]), k)
  {
    hide Fits, ProblemOf, Reads;
    if k < |batch| && !Fits(batch[k], tables) && forall i :: 0 <= i < k ==> Fits(batch[i], tables) {
      BatchFrom(batch, tables, 0, k);
    }
  }

  /** The units that a character is counted by are those of its code point. */
  lemma UnitsExactly(c: char)
    ensures c as int < 0x1_0000 ==> UnitsOf(c) == [c as int]
    ensures c as int >= 0x1_0000 ==>
              |UnitsOf(c)| == 2 && 0xD800 <= UnitsOf(c)[0] < 0xDC00 <= UnitsOf(c)[1] < 0xE000
              && (UnitsOf(c)[0] as int - 0xD800) * 0x400 + (UnitsOf(c)[1] as int - 0xDC00) + 0x1_0000 == c as int
  {
  }
}
