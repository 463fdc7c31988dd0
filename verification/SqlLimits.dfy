/** packages/db/src/limits.ts: what is checked before anything is sent. */
module SqlLimits {
  import opened Casing
  import opened Wrappers
  import opened SqlLexer
  import opened SqlSplit
  import opened SqlTargets
  import Utf16
  import Utf8

  const MAX_PARAMS := 100
  const MAX_SQL_BYTES := 100_000
  const MAX_VALUE_BYTES := 2_000_000

  datatype Param = Text(text: string) | NotText

  datatype Statement = Statement(sql: string, params: seq<Param>)

  /** Buffer.byteLength(text, "utf8") */
  function ByteLength(text: string): nat {
    if text == "" then 0
    else
      var c := text[0] as int;
      (if c < 0x80 then 1 else if c < 0x800 then 2 else if c < 0x1_0000 then 3 else 4) + ByteLength(text[1..])
  }

  /** The characters as a JavaScript string holds them: one unit each, or a surrogate pair. */
  function Units(text: string): Utf16.Text {
    if text == "" then [] else UnitsOf(text[0]) + Units(text[1..])
  }

  function UnitsOf(c: char): Utf16.Text {
    var n := c as int;
    if n < 0x1_0000 then [n] else [0xD800 + (n - 0x1_0000) / 0x400, 0xDC00 + (n - 0x1_0000) % 0x400]
  }

  lemma HeadOfUnits(c: char, rest: Utf16.Text)
    ensures var text := UnitsOf(c) + rest;
            && Utf8.HeadLength(text) == |UnitsOf(c)|
            && |Utf8.HeadBytes(text)| == ByteLength([c])
  {
  }

  /** The length that is checked is that of the UTF-8 bytes. */
  lemma {:induction false} ByteLengthIsUtf8(text: string)
    ensures ByteLength(text) == |Utf8.Bytes(Units(text))|
  {
    hide Utf8.HeadBytes, Utf8.HeadLength, UnitsOf;
    if text != "" {
      var head, rest := UnitsOf(text[0]), Units(text[1..]);
      ByteLengthIsUtf8(text[1..]);
      HeadOfUnits(text[0], rest);
      assert (head + rest)[|head|..] == rest;
      assert ByteLength([text[0]]) + ByteLength(text[1..]) == ByteLength(text);
    }
  }

  /* ----- checkStatement ----- */

  predicate ParamFits(p: Param) {
    p.Text? && ByteLength(p.text) <= MAX_VALUE_BYTES
  }

  function StatementsOf(sql: string): seq<seq<Token>>
    requires Tokens(sql).Some?
  {
    Statements(Tokens(sql).value)
  }

  const CONTROL_WORDS := {"BEGIN", "COMMIT", "END", "ROLLBACK", "SAVEPOINT", "RELEASE", "ATTACH", "DETACH"}

  function CountAnonymous(tokens: seq<Token>): nat {
    if tokens == [] then 0
    else
      var last := tokens[|tokens| - 1];
      CountAnonymous(tokens[..|tokens| - 1]) + if last.kind == Parameter && last.text == "?" then 1 else 0
  }

  predicate NoOtherParameter(tokens: seq<Token>) {
    forall i :: 0 <= i < |tokens| && tokens[i].kind == Parameter ==> tokens[i].text == "?"
  }

  /** An update or delete of an append-only table, or the end of one of its triggers. */
  predicate TouchesProtected(target: WriteTarget, tables: seq<string>) {
    if target.operation == DropTriggerOp then exists i :: 0 <= i < |tables| && Lower(tables[i]) + "_" <= target.name
    else target.operation != InsertOp && exists i :: 0 <= i < |tables| && Lower(tables[i]) == target.name
  }

  predicate SqlFits(sql: string, params: nat, tables: seq<string>) {
    && ByteLength(sql) <= MAX_SQL_BYTES
    && Tokens(sql).Some?
    && var statements := StatementsOf(sql);
    var tokens := Flat(statements);
    && |statements| == 1
    && !WordAt(tokens, 0, CONTROL_WORDS)
    && NoOtherParameter(tokens)
    && CountAnonymous(tokens) == params
    && forall i :: 0 <= i < |TargetsIn(tokens, |tokens|).targets| ==>
                     !TouchesProtected(TargetsIn(tokens, |tokens|).targets[i], tables)
  }

  predicate Fits(s: Statement, tables: seq<string>) {
    && |s.params| <= MAX_PARAMS
    && (forall i :: 0 <= i < |s.params| ==> ParamFits(s.params[i]))
    && SqlFits(s.sql, |s.params|, tables)
  }

  /** The verdict on an accepted statement: it only reads. */
  predicate Reads(s: Statement) {
    Tokens(s.sql).Some? && IsReadOnly(StatementsOf(s.sql))
  }

  /** What is thrown, in the order of the checks. */
  datatype Problem =
    | BatchEmpty
    | SqlBytes | TooManyParams | ParamNotText | ValueBytes
    | UnterminatedText | StatementEmpty | SeveralStatements | TransactionControl
    | NamedParameter | PlaceholderCount | AppendOnlyTable

  /** A refusal is about the first problem of the first statement that has one. */
  datatype Verdict = Accepted(readOnly: bool) | Refused(problem: Problem, index: nat)

  function ParamProblem(params: seq<Param>): Problem {
    if params == [] || !params[0].Text? then ParamNotText
    else if !ParamFits(params[0]) then ValueBytes
    else ParamProblem(params[1..])
  }

  /** The first problem of a statement that does not fit. */
  function ProblemOf(s: Statement): Problem {
    if ByteLength(s.sql) > MAX_SQL_BYTES then SqlBytes
    else if |s.params| > MAX_PARAMS then TooManyParams
    else if exists i :: 0 <= i < |s.params| && !ParamFits(s.params[i]) then ParamProblem(s.params)
    else if Tokens(s.sql).None? then UnterminatedText
    else
      var statements := StatementsOf(s.sql);
      var tokens := Flat(statements);
      if statements == [] then StatementEmpty
      else if |statements| > 1 then SeveralStatements
      else if WordAt(tokens, 0, CONTROL_WORDS) then TransactionControl
      else if !NoOtherParameter(tokens) then NamedParameter
      else if CountAnonymous(tokens) != |s.params| then PlaceholderCount
      else AppendOnlyTable
  }

  lemma {:induction false} ParamProblemAt(params: seq<Param>, i: nat)
    requires i < |params| && !ParamFits(params[i]) && forall k :: 0 <= k < i ==> ParamFits(params[k])
    ensures ParamProblem(params) == if params[i].Text? then ValueBytes else ParamNotText
  {
    if i > 0 {
      ParamProblemAt(params[1..], i - 1);
    }
  }

  method CheckParams(params: seq<Param>) returns (problem: Option<Problem>)
    ensures problem.None? <==> forall i :: 0 <= i < |params| ==> ParamFits(params[i])
    ensures problem.Some? ==> problem.value == ParamProblem(params)
  {
    hide ParamProblem;
    for i := 0 to |params|
      invariant forall k :: 0 <= k < i ==> ParamFits(params[k])
    {
      if !params[i].Text? {
        ParamProblemAt(params, i);
        return Some(ParamNotText);
      }
      if ByteLength(params[i].text) > MAX_VALUE_BYTES {
        ParamProblemAt(params, i);
        return Some(ValueBytes);
      }
    }
    problem := None;
  }

  /** The parameters of a statement: how many are anonymous, and whether all are. */
  method CountParameters(tokens: seq<Token>) returns (anonymous: nat, others: nat)
    ensures anonymous == CountAnonymous(tokens)
    ensures others == 0 <==> NoOtherParameter(tokens)
  {
    anonymous, others := 0, 0;
    assert tokens[..0] == [];
    for i := 0 to |tokens|
      invariant anonymous == CountAnonymous(tokens[..i])
      invariant others == 0 <==> NoOtherParameter(tokens[..i])
    {
      assert tokens[..i + 1][..i] == tokens[..i];
      if tokens[i].kind == Parameter {
        if tokens[i].text == "?" {
          anonymous := anonymous + 1;
        } else {
          others := others + 1;
          assert tokens[..i + 1][i] == tokens[i];
        }
      }
    }
    assert tokens[..|tokens|] == tokens;
  }

  method CheckStatement(s: Statement, index: nat, tables: seq<string>) returns (verdict: Verdict)
    ensures verdict == if Fits(s, tables) then Accepted(Reads(s)) else Refused(ProblemOf(s), index)
  {
    hide ByteLength, Tokens, Statements, IsReadOnly, TargetsIn, TouchesProtected, WordAt, NoOtherParameter, ParamFits, Flat,
         ParamProblem;
    if ByteLength(s.sql) > MAX_SQL_BYTES {
      return Refused(SqlBytes, index);
    }
    if |s.params| > MAX_PARAMS {
      return Refused(TooManyParams, index);
    }
    var paramProblem := CheckParams(s.params);
    if paramProblem.Some? {
      return Refused(paramProblem.value, index);
    }
    var lexed := TokenizeSql(s.sql);
    if lexed.None? {
      return Refused(UnterminatedText, index);
    }
    var statements := StatementsOf(s.sql);
    var tokens := Flat(statements);
    if statements == [] {
      return Refused(StatementEmpty, index);
    }
    if |statements| > 1 {
      return Refused(SeveralStatements, index);
    }
    if WordAt(tokens, 0, CONTROL_WORDS) {
      return Refused(TransactionControl, index);
    }
    var anonymous, others := CountParameters(tokens);
    if others > 0 {
      return Refused(NamedParameter, index);
    }
    if anonymous != |s.params| {
      return Refused(PlaceholderCount, index);
    }
    var targets := FindWriteTargets(tokens);
    for i := 0 to |targets|
      invariant forall k :: 0 <= k < i ==> !TouchesProtected(targets[k], tables)
    {
      if TouchesProtected(targets[i], tables) {
        return Refused(AppendOnlyTable, index);
      }
    }
    verdict := Accepted(IsReadOnly(statements));
  }

  /* ----- checkBatch ----- */

  predicate BatchFits(batch: seq<Statement>, tables: seq<string>) {
    batch != [] && forall i :: 0 <= i < |batch| ==> Fits(batch[i], tables)
  }

  /** The first problem from statement `i` on. */
  function BatchProblem(batch: seq<Statement>, tables: seq<string>, i: nat): (r: Verdict)
    ensures r.Refused?
    decreases |batch| - i
  {
    if i >= |batch| then Refused(BatchEmpty, 0)
    else if !Fits(batch[i], tables) then Refused(ProblemOf(batch[i]), i)
    else BatchProblem(batch, tables, i + 1)
  }

  function BatchVerdict(batch: seq<Statement>, tables: seq<string>): Verdict {
    if !BatchFits(batch, tables) then BatchProblem(batch, tables, 0)
    else Accepted(forall i :: 0 <= i < |batch| ==> Reads(batch[i]))
  }

  method CheckBatch(batch: seq<Statement>, tables: seq<string>) returns (verdict: Verdict)
    ensures verdict == BatchVerdict(batch, tables)
  {
    hide Fits, Reads, ProblemOf;
    if batch == [] {
      return Refused(BatchEmpty, 0);
    }
    var readOnly := true;
    for i := 0 to |batch|
      invariant forall k :: 0 <= k < i ==> Fits(batch[k], tables)
      invariant BatchProblem(batch, tables, 0) == BatchProblem(batch, tables, i)
      invariant readOnly <==> forall k :: 0 <= k < i ==> Reads(batch[k])
    {
      var checked := CheckStatement(batch[i], i, tables);
      if checked.Refused? {
        return checked;
      }
      if !checked.readOnly {
        readOnly := false;
      }
    }
    verdict := Accepted(readOnly);
  }

  /** The rows a statement names as written: insert, update, delete, replace or upsert. */
  ghost predicate NamesNoRows(s: Statement) {
    && Tokens(s.sql).Some?
    && var tokens := Flat(StatementsOf(s.sql));
    forall target :: target in TargetsIn(tokens, |tokens|).targets ==> !WritesRows(target)
  }

  /** Nothing in a batch that was accepted as read-only writes rows. */
  lemma ReadOnlyBatchWritesNoRows(batch: seq<Statement>, tables: seq<string>)
    requires BatchVerdict(batch, tables) == Accepted(true)
    ensures forall s :: s in batch ==> NamesNoRows(s) && |StatementsOf(s.sql)| == 1
  {
    hide Fits, Tokens, Statements, IsWriteWord, WritesRows, TargetsIn, Flat;
    forall s | s in batch
      ensures NamesNoRows(s) && |StatementsOf(s.sql)| == 1
    {
      assert Reads(s);
      var tokens := Flat(StatementsOf(s.sql));
      ReadOnlyWritesNoRows(tokens, |tokens|);
    }
  }

  /**
   * By the names that are recorded, append-only tables are only inserted into: no accepted statement has any
   * other write form with the recorded name of one, nor drops a trigger with a recorded name after one.
   */
  lemma AppendOnly(
    s: Statement, tables: seq<string>, table: string, i: nat, operation: WriteOperation, j: nat, name: string)
    requires Fits(s, tables) && table in tables && name != ""
    requires var tokens := Flat(StatementsOf(s.sql));
             Writes(tokens, i, operation, j) && NameIs(tokens, j, name)
    ensures name == Lower(table) ==> operation in {InsertOp, DropTriggerOp}
    ensures Lower(table) + "_" <= name ==> operation != DropTriggerOp
  {
    hide Tokens, Statements, Flat, Writes, NameIs, TargetsIn, ByteLength, WordAt, Lower;
    var tokens := Flat(StatementsOf(s.sql));
    WriteIsTarget(tokens, i, operation, j, name);
    assert !TouchesProtected(WriteTarget(operation, name), tables);
    var k :| 0 <= k < |tables| && tables[k] == table;
  }

  /** A statement judged read-only has no form that writes rows of a named table. */
  lemma ReadOnlyHasNoWrites(s: Statement, i: nat, operation: WriteOperation, j: nat, name: string)
    requires Reads(s) && name != ""
    requires var tokens := Flat(StatementsOf(s.sql));
             Writes(tokens, i, operation, j) && NameIs(tokens, j, name)
    ensures operation in {DropTableOp, DropTriggerOp, AlterTableOp}
  {
    hide Tokens, Statements, Flat, Writes, NameIs, TargetsIn, WordAt;
    var tokens := Flat(StatementsOf(s.sql));
    WriteIsTarget(tokens, i, operation, j, name);
    ReadOnlyWritesNoRows(tokens, |tokens|);
    assert !WritesRows(WriteTarget(operation, name));
  }
}
