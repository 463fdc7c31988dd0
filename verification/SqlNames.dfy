/**
 * packages/db/src/limits.ts and sql-lexer.ts: the names SQLite reads in a statement, against the names that
 * the check records, and what this means for append-only tables.
 */
module SqlNames {
  import opened Wrappers
  import opened Casing
  import opened SqlLexer
  import opened SqlSplit
  import opened SqlTargets
  import opened SqlLimits

  /* ----- Names as SQLite reads them ----- */

  /** A part of a name: SQLite takes a string literal too. */
  predicate IsPart(tokens: seq<Token>, i: nat) {
    i < |tokens| && tokens[i].kind in {Word, Identifier, Literal}
  }

  ghost predicate FullParts(tokens: seq<Token>, i: nat, last: nat)
    decreases last - i
  {
    && i <= last && IsPart(tokens, i)
    && (if i == last then true else i + 2 <= last && IsDot(tokens, i + 1) && FullParts(tokens, i + 2, last))
  }

  /** The name that starts at `i` and goes on as long as parts follow dots; its last part is at `last`. */
  ghost predicate FullNameAt(tokens: seq<Token>, i: nat, last: nat) {
    FullParts(tokens, i, last) && !(IsDot(tokens, last + 1) && IsPart(tokens, last + 2))
  }

  lemma {:induction false} FullNameEnds(tokens: seq<Token>, i: nat) returns (last: nat)
    requires IsPart(tokens, i)
    ensures FullNameAt(tokens, i, last)
    decreases |tokens| - i
  {
    last := i;
    if IsDot(tokens, i + 1) && IsPart(tokens, i + 2) {
      last := FullNameEnds(tokens, i + 2);
    }
  }

  lemma {:induction false} OneFullName(tokens: seq<Token>, i: nat, last: nat, other: nat)
    requires FullNameAt(tokens, i, last) && FullNameAt(tokens, i, other)
    ensures last == other && last < |tokens|
    decreases |tokens| - i
  {
    assert i < last ==> FullParts(tokens, i + 2, last);
    assert i < other ==> FullParts(tokens, i + 2, other);
    if i < last && i < other {
      OneFullName(tokens, i + 2, last, other);
    }
  }

  /** The first part from `i` on that is a literal; past the name when none is. */
  function FirstLiteral(tokens: seq<Token>, i: nat, last: nat): nat
    decreases last + 2 - i
  {
    if i > last || (i < |tokens| && tokens[i].kind == Literal) then i else FirstLiteral(tokens, i + 2, last)
  }

  /* ----- What is recorded ----- */

  /** What is recorded is the part before the first literal: nothing when the name begins with one. */
  lemma {:induction false} RecordedStopsAtLiteral(tokens: seq<Token>, i: nat, last: nat, before: Option<string>)
    requires FullNameAt(tokens, i, last)
    ensures var p := FirstLiteral(tokens, i, last);
            && i <= p <= last + 2 && (p <= last ==> p < |tokens| && tokens[p].kind == Literal)
            && (p > i ==> 2 <= p < |tokens| + 2)
            && (p > last ==> p == last + 2)
            && ReadName(tokens, i, before) == if p == i then before else Some(NameOf(tokens[p - 2]))
    decreases last - i
  {
    hide NameOf;
    if tokens[i].kind != Literal && i < last {
      RecordedStopsAtLiteral(tokens, i + 2, last, Some(NameOf(tokens[i])));
    }
  }

  /**
   * The name that is recorded is the one SQLite reads exactly when no part of it is a literal, but for a
   * literal that comes after a part of the same name as the last.
   */
  lemma RecordedIsTrueExactly(tokens: seq<Token>, i: nat, last: nat)
    requires FullNameAt(tokens, i, last)
    ensures last < |tokens|
    ensures var p := FirstLiteral(tokens, i, last);
            && (i < p <= last ==> 2 <= p < |tokens|)
            && (ReadName(tokens, i, None) == Some(NameOf(tokens[last])) <==>
                p > last || (i < p && NameOf(tokens[p - 2]) == NameOf(tokens[last])))
  {
    hide NameOf;
    OneFullName(tokens, i, last, last);
    RecordedStopsAtLiteral(tokens, i, last, None);
  }

  /* ----- When the check guards a name ----- */

  /** The check lets a write with this recorded name pass. */
  predicate Passes(operation: WriteOperation, recorded: Option<string>, tables: seq<string>) {
    recorded.None? || recorded.value == "" || !TouchesProtected(WriteTarget(operation, recorded.value), tables)
  }

  /** Whatever tables are append-only: when the check passes, the write harms none of them under its true name. */
  ghost predicate Guards(operation: WriteOperation, recorded: Option<string>, name: string) {
    forall tables :: Passes(operation, recorded, tables) ==> !TouchesProtected(WriteTarget(operation, name), tables)
  }

  /** A trigger is guarded when its name up to any underscore begins the recorded name too. */
  predicate SharesTables(recorded: Option<string>, name: string) {
    forall k :: 0 <= k < |name| && name[k] == '_' ==> recorded.Some? && name[..k + 1] <= recorded.value
  }

  lemma GuardsExactly(operation: WriteOperation, recorded: Option<string>, name: string)
    requires IsLower(name)
    ensures Guards(operation, recorded, name) <==>
            match operation
            case InsertOp => true
            case DropTriggerOp => SharesTables(recorded, name)
            case _ => recorded == Some(name) && name != ""
  {
    if operation == DropTriggerOp {
      TriggerGuardsExactly(recorded, name);
    } else if operation != InsertOp {
      TableGuardsExactly(operation, recorded, name);
    }
  }

  lemma TableGuardsExactly(operation: WriteOperation, recorded: Option<string>, name: string)
    requires IsLower(name) && operation !in {InsertOp, DropTriggerOp}
    ensures Guards(operation, recorded, name) <==> recorded == Some(name) && name != ""
  {
    hide Lower;
    LowerKeeps(name);
    var tables := [name];
    assert Lower(tables[0]) == name;
    assert TouchesProtected(WriteTarget(operation, name), tables);
    if Guards(operation, recorded, name) {
      assert !Passes(operation, recorded, tables);
    }
  }

  lemma TriggerGuardsExactly(recorded: Option<string>, name: string)
    requires IsLower(name)
    ensures Guards(DropTriggerOp, recorded, name) <==> SharesTables(recorded, name)
  {
    hide Lower;
    if Guards(DropTriggerOp, recorded, name) {
      forall k | 0 <= k < |name| && name[k] == '_'
        ensures recorded.Some? && name[..k + 1] <= recorded.value
      {
        var tables := [name[..k]];
        LowerKeeps(name[..k]);
        assert Lower(tables[0]) + "_" == name[..k + 1];
        assert TouchesProtected(WriteTarget(DropTriggerOp, name), tables);
        assert !Passes(DropTriggerOp, recorded, tables);
      }
    }
    if SharesTables(recorded, name) {
      forall tables | TouchesProtected(WriteTarget(DropTriggerOp, name), tables)
        ensures !Passes(DropTriggerOp, recorded, tables)
      {
        var i :| 0 <= i < |tables| && Lower(tables[i]) + "_" <= name;
        var k := |Lower(tables[i])|;
        assert name[..k + 1] == Lower(tables[i]) + "_";
        assert name[k] == '_';
        assert Lower(tables[i]) + "_" <= recorded.value;
      }
    }
  }

  lemma NameIsLower(t: Token)
    ensures IsLower(NameOf(t))
  {
    hide Lower, IsLower;
    LowerIsLower(t.text);
    LowerIsLower(Unquoted(t.text));
  }

  /**
   * A write other than an insert is guarded, whatever tables are append-only, exactly when the name of its
   * table has no literal part, but for one after a part of the same name; a trigger's may also have one after
   * a part that begins like it up to its last underscore.
   */
  lemma GuardedExactly(tokens: seq<Token>, operation: WriteOperation, j: nat, last: nat)
    requires FullNameAt(tokens, j, last) && last < |tokens| && NameOf(tokens[last]) != ""
    ensures var p, name := FirstLiteral(tokens, j, last), NameOf(tokens[last]);
            && (j < p <= last ==> 2 <= p < |tokens|)
            && (Guards(operation, ReadName(tokens, j, None), name) <==>
                || operation == InsertOp
                || p > last
                || (operation != DropTriggerOp && j < p && NameOf(tokens[p - 2]) == name)
                || (operation == DropTriggerOp && SharesTables(if j < p then Some(NameOf(tokens[p - 2])) else None, name)))
  {
    hide NameOf, Guards;
    var name := NameOf(tokens[last]);
    NameIsLower(tokens[last]);
    RecordedStopsAtLiteral(tokens, j, last, None);
    GuardsExactly(operation, ReadName(tokens, j, None), name);
    assert SharesTables(Some(name), name);
  }

  /* ----- Accepted statements ----- */

  /** No write form of the tokens harms an append-only table or its triggers, by the names SQLite reads. */
  ghost predicate Protected(tokens: seq<Token>, tables: seq<string>) {
    forall i: nat, operation, j: nat, last: nat ::
      Writes(tokens, i, operation, j) && FullNameAt(tokens, j, last) && last < |tokens| && NameOf(tokens[last]) != "" ==>
        !TouchesProtected(WriteTarget(operation, NameOf(tokens[last])), tables)
  }

  /** The write form is one of those, and its name has a literal part. */
  ghost predicate WritesByLiteral(tokens: seq<Token>, i: nat, operation: WriteOperation, j: nat, last: nat) {
    && Writes(tokens, i, operation, j) && FullNameAt(tokens, j, last) && last < |tokens| && NameOf(tokens[last]) != ""
    && FirstLiteral(tokens, j, last) <= last
  }

  /** A name without literals is a name to the check as well. */
  lemma {:induction false} PlainName(tokens: seq<Token>, j: nat, last: nat)
    requires FullNameAt(tokens, j, last) && FirstLiteral(tokens, j, last) > last
    ensures last < |tokens| && NameAt(tokens, j, last)
    decreases last - j
  {
    if j < last {
      PlainName(tokens, j + 2, last);
    }
  }

  /**
   * An accepted statement leaves append-only tables and their triggers alone exactly when none of its write
   * forms with a literal in the name harms one.
   */
  lemma AppendOnlyExactly(s: Statement, tables: seq<string>)
    requires Fits(s, tables)
    ensures var tokens := Flat(StatementsOf(s.sql));
            Protected(tokens, tables) <==>
            forall i: nat, operation, j: nat, last: nat :: WritesByLiteral(tokens, i, operation, j, last) ==>
              !TouchesProtected(WriteTarget(operation, NameOf(tokens[last])), tables)
  {
    hide Tokens, Statements, Flat, Writes, NameOf, TargetsIn, ByteLength, WordAt, TouchesProtected, FullNameAt, FirstLiteral;
    var tokens := Flat(StatementsOf(s.sql));
    forall i: nat, operation, j: nat, last: nat |
      Writes(tokens, i, operation, j) && FullNameAt(tokens, j, last) && last < |tokens| && NameOf(tokens[last]) != ""
      && !WritesByLiteral(tokens, i, operation, j, last)
      ensures !TouchesProtected(WriteTarget(operation, NameOf(tokens[last])), tables)
    {
      PlainName(tokens, j, last);
      assert NameIs(tokens, j, NameOf(tokens[last]));
      WriteIsTarget(tokens, i, operation, j, NameOf(tokens[last]));
    }
  }
}
