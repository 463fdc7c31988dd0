/** packages/db/src/sql-lexer.ts: the write targets of a statement, told from the forms of SQL. */
module SqlTargets {
  import opened Casing
  import opened Wrappers
  import opened SqlLexer
  import opened SqlSplit

  /* ----- Names ----- */

  predicate IsDot(tokens: seq<Token>, i: nat) {
    i < |tokens| && tokens[i].kind == Punctuation && tokens[i].text == "."
  }

  /** Name parts with dots between them, from `i` to `last`. */
  ghost predicate Parts(tokens: seq<Token>, i: nat, last: nat)
    decreases last - i
  {
    && i <= last < |tokens| && IsName(tokens, i)
    && (i < last ==> IsDot(tokens, i + 1) && Parts(tokens, i + 2, last))
  }

  /** A possibly schema-qualified name that starts at `i` and whose last part is at `last`. */
  ghost predicate NameAt(tokens: seq<Token>, i: nat, last: nat) {
    Parts(tokens, i, last) && !(IsDot(tokens, last + 1) && IsName(tokens, last + 2))
  }

  /** The name that starts at `i` ends in `name`. */
  ghost predicate NameIs(tokens: seq<Token>, i: nat, name: string) {
    exists last: nat :: NameAt(tokens, i, last) && NameOf(tokens[last]) == name
  }

  lemma {:induction false} ReadNameEnds(tokens: seq<Token>, i: nat, last: nat, before: Option<string>)
    requires NameAt(tokens, i, last)
    ensures ReadName(tokens, i, before) == Some(NameOf(tokens[last]))
    decreases last - i
  {
    hide NameOf;
    if i < last {
      ReadNameEnds(tokens, i + 2, last, Some(NameOf(tokens[i])));
    }
  }

  lemma {:induction false} NameEnds(tokens: seq<Token>, i: nat) returns (last: nat)
    requires IsName(tokens, i)
    ensures NameAt(tokens, i, last)
    decreases |tokens| - i
  {
    last := i;
    if IsDot(tokens, i + 1) && IsName(tokens, i + 2) {
      last := NameEnds(tokens, i + 2);
    }
  }

  /** Reading a name gives the last part of the name that starts there, and nothing where none starts. */
  lemma ReadNameIsLastPart(tokens: seq<Token>, i: nat, name: string)
    ensures ReadName(tokens, i, None) == Some(name) <==> NameIs(tokens, i, name)
  {
    hide NameOf;
    if IsName(tokens, i) {
      var last := NameEnds(tokens, i);
      ReadNameEnds(tokens, i, last, None);
      forall other: nat | NameAt(tokens, i, other)
        ensures NameOf(tokens[other]) == NameOf(tokens[last])
      {
        ReadNameEnds(tokens, i, other, None);
      }
    }
  }

  /* ----- Quoted names ----- */

  /** A name as it stands between quotes: each quote in it is doubled. */
  function Doubled(name: string, quote: char): string {
    if name == "" then ""
    else (if name[0] == quote then [quote, quote] else [name[0]]) + Doubled(name[1..], quote)
  }

  lemma {:induction false} UndoubledDoubled(name: string, quote: char)
    ensures Undoubled(Doubled(name, quote), quote) == name
  {
    if name != "" {
      var rest := Doubled(name[1..], quote);
      UndoubledDoubled(name[1..], quote);
      if name[0] == quote {
        assert ([quote, quote] + rest)[2..] == rest;
      } else {
        assert ([name[0]] + rest)[1..] == rest;
      }
      assert name == [name[0]] + name[1..];
    }
  }

  /** Quoting a name and reading the identifier gives the name. */
  lemma UnquotedQuoted(name: string, quote: char)
    requires quote != '['
    ensures Unquoted([quote] + Doubled(name, quote) + [quote]) == name
    ensures Unquoted("[" + name + "]") == name
  {
    UndoubledDoubled(name, quote);
    var text := [quote] + Doubled(name, quote) + [quote];
    assert text[1..|text| - 1] == Doubled(name, quote);
    var bracketed := "[" + name + "]";
    assert bracketed[1..|bracketed| - 1] == name;
  }

  /* ----- Write forms ----- */

  /** INSERT INTO or INSERT OR ... INTO other than INSERT OR REPLACE INTO. */
  predicate Inserts(tokens: seq<Token>, i: nat, j: nat) {
    && WordAt(tokens, i, {"INSERT"})
    && ((WordAt(tokens, i + 1, {"INTO"}) && j == i + 2)
        || (WordAt(tokens, i + 1, {"OR"}) && !WordAt(tokens, i + 2, {"REPLACE"})
            && WordAt(tokens, i + 3, {"INTO"}) && j == i + 4))
  }

  predicate Replaces(tokens: seq<Token>, i: nat, j: nat) {
    WordAt(tokens, i, {"REPLACE"}) && WordAt(tokens, i + 1, {"INTO"}) && j == i + 2
  }

  /** An insert, INSERT OR REPLACE included: what a later DO UPDATE is about. */
  predicate InsertsInto(tokens: seq<Token>, i: nat, j: nat) {
    Inserts(tokens, i, j) || (Replaces(tokens, i, j) && WordAt(tokens, i - 1, {"OR"}))
  }

  predicate Drops(tokens: seq<Token>, i: nat, what: string, j: nat) {
    && WordAt(tokens, i, {"DROP"}) && WordAt(tokens, i + 1, {what})
    && j == if WordAt(tokens, i + 2, {"IF"}) && WordAt(tokens, i + 3, {"EXISTS"}) then i + 4 else i + 2
  }

  /** The latest insert before `i` has its table's name at `j`. */
  ghost predicate LatestInsert(tokens: seq<Token>, i: nat, j: nat) {
    exists k: nat :: k < i && InsertsInto(tokens, k, j) && forall m: nat, n: nat :: k < m < i ==> !InsertsInto(tokens, m, n)
  }

  /** A write of the given kind at token `i`, with the name of its table or trigger at `j`. */
  ghost predicate Writes(tokens: seq<Token>, i: nat, operation: WriteOperation, j: nat) {
    match operation
    case InsertOp => Inserts(tokens, i, j)
    case ReplaceOp => Replaces(tokens, i, j)
    case UpdateOp =>
      && WordAt(tokens, i, {"UPDATE"}) && !WordAt(tokens, i - 1, {"DO"})
      && !WordAt(tokens, i - 1, {"ON", "BEFORE", "AFTER", "OF"})
      && j == if WordAt(tokens, i + 1, {"OR"}) then i + 3 else i + 1
    case DeleteOp =>
      WordAt(tokens, i, {"DELETE"}) && !WordAt(tokens, i - 1, {"ON"}) && WordAt(tokens, i + 1, {"FROM"}) && j == i + 2
    case DropTableOp => Drops(tokens, i, "TABLE", j)
    case DropTriggerOp => Drops(tokens, i, "TRIGGER", j)
    case AlterTableOp => WordAt(tokens, i, {"ALTER"}) && WordAt(tokens, i + 1, {"TABLE"}) && j == i + 2
    case UpsertUpdateOp =>
      WordAt(tokens, i, {"UPDATE"}) && WordAt(tokens, i - 1, {"DO"}) && LatestInsert(tokens, i, j)
  }

  /** What is remembered after `n` tokens is the name of the latest insert. */
  ghost predicate Remembers(tokens: seq<Token>, n: nat, remembered: Option<string>) {
    && (forall j: nat :: LatestInsert(tokens, n, j) ==> remembered == ReadName(tokens, j, None))
    && (remembered.Some? ==> exists j: nat :: LatestInsert(tokens, n, j))
  }

  lemma LatestMoves(tokens: seq<Token>, i: nat, j: nat)
    ensures LatestInsert(tokens, i + 1, j) <==>
            InsertsInto(tokens, i, j) || (LatestInsert(tokens, i, j) && forall n: nat :: !InsertsInto(tokens, i, n))
  {
    hide InsertsInto;
    if LatestInsert(tokens, i + 1, j) {
      var k: nat :| k < i + 1 && InsertsInto(tokens, k, j) && forall m: nat, n: nat :: k < m < i + 1 ==> !InsertsInto(tokens, m, n);
      if k < i {
        assert LatestInsert(tokens, i, j);
      }
    }
    if InsertsInto(tokens, i, j) {
      assert LatestInsert(tokens, i + 1, j);
    } else if LatestInsert(tokens, i, j) && forall n: nat :: !InsertsInto(tokens, i, n) {
      var k: nat :| k < i && InsertsInto(tokens, k, j) && forall m: nat, n: nat :: k < m < i ==> !InsertsInto(tokens, m, n);
      assert forall m: nat, n: nat :: k < m < i + 1 ==> !InsertsInto(tokens, m, n);
    }
  }

  lemma OneWord(tokens: seq<Token>, i: int, a: string, b: string)
    requires a != b
    ensures !(WordAt(tokens, i, {a}) && WordAt(tokens, i, {b}))
  {
    hide Upper;
  }

  lemma InsertRemembered(tokens: seq<Token>, i: nat, remembered: Option<string>, j: nat)
    requires i < |tokens| && InsertsInto(tokens, i, j)
    ensures Visit(tokens, i, remembered).insertTarget == ReadName(tokens, j, None)
  {
    hide ReadName, WordAt;
    OneWord(tokens, i, "INSERT", "REPLACE");
    OneWord(tokens, i + 1, "INTO", "OR");
  }

  lemma OthersLeave(tokens: seq<Token>, i: nat, remembered: Option<string>)
    requires i < |tokens| && !InsertsInto(tokens, i, i + 2) && !InsertsInto(tokens, i, i + 4)
    ensures Visit(tokens, i, remembered).insertTarget == remembered
  {
    hide ReadName, WordAt;
  }

  lemma VisitRemembers(tokens: seq<Token>, i: nat, remembered: Option<string>)
    requires i < |tokens|
    ensures forall j: nat ::
              InsertsInto(tokens, i, j) ==> Visit(tokens, i, remembered).insertTarget == ReadName(tokens, j, None)
    ensures (forall j: nat :: !InsertsInto(tokens, i, j)) ==> Visit(tokens, i, remembered).insertTarget == remembered
  {
    hide Visit, InsertsInto, ReadName;
    forall j: nat | InsertsInto(tokens, i, j)
      ensures Visit(tokens, i, remembered).insertTarget == ReadName(tokens, j, None)
    {
      InsertRemembered(tokens, i, remembered, j);
    }
    if !InsertsInto(tokens, i, i + 2) && !InsertsInto(tokens, i, i + 4) {
      OthersLeave(tokens, i, remembered);
    }
  }

  lemma {:induction false} TargetsRemember(tokens: seq<Token>, n: nat)
    requires n <= |tokens|
    ensures Remembers(tokens, n, TargetsIn(tokens, n).insertTarget)
  {
    hide Visit, InsertsInto, ReadName, LatestInsert;
    if n == 0 {
      NoInsertYet(tokens);
    } else {
      TargetsRemember(tokens, n - 1);
      VisitRemembers(tokens, n - 1, TargetsIn(tokens, n - 1).insertTarget);
      RememberStep(tokens, n - 1, TargetsIn(tokens, n - 1).insertTarget, TargetsIn(tokens, n).insertTarget);
    }
  }

  lemma NoInsertYet(tokens: seq<Token>)
    ensures forall j: nat :: !LatestInsert(tokens, 0, j)
  {
  }

  lemma RememberStep(tokens: seq<Token>, i: nat, before: Option<string>, after: Option<string>)
    requires Remembers(tokens, i, before)
    requires forall j: nat :: InsertsInto(tokens, i, j) ==> after == ReadName(tokens, j, None)
    requires (forall j: nat :: !InsertsInto(tokens, i, j)) ==> after == before
    ensures Remembers(tokens, i + 1, after)
  {
    hide InsertsInto, ReadName, LatestInsert;
    forall j: nat
      ensures LatestInsert(tokens, i + 1, j) <==>
              InsertsInto(tokens, i, j) || (LatestInsert(tokens, i, j) && forall n: nat :: !InsertsInto(tokens, i, n))
    {
      LatestMoves(tokens, i, j);
    }
  }

  lemma Keywords(tokens: seq<Token>, i: int)
    ensures WordAt(tokens, i, {"REPLACE"}) ==> !WordAt(tokens, i, {"INSERT"})
    ensures WordAt(tokens, i, {"UPDATE"}) ==> !WordAt(tokens, i, {"INSERT"}) && !WordAt(tokens, i, {"REPLACE"})
    ensures WordAt(tokens, i, {"DELETE"}) ==>
              !WordAt(tokens, i, {"INSERT"}) && !WordAt(tokens, i, {"REPLACE"}) && !WordAt(tokens, i, {"UPDATE"})
    ensures WordAt(tokens, i, {"DROP"}) ==>
              !WordAt(tokens, i, {"INSERT"}) && !WordAt(tokens, i, {"REPLACE"}) && !WordAt(tokens, i, {"UPDATE"})
              && !WordAt(tokens, i, {"DELETE"})
    ensures WordAt(tokens, i, {"ALTER"}) ==>
              !WordAt(tokens, i, {"INSERT"}) && !WordAt(tokens, i, {"REPLACE"}) && !WordAt(tokens, i, {"UPDATE"})
              && !WordAt(tokens, i, {"DELETE"}) && !WordAt(tokens, i, {"DROP"})
  {
    hide Upper;
  }

  /** A write form at token `i` gives the target's name. */
  ghost predicate Finds(tokens: seq<Token>, i: nat, target: WriteTarget) {
    target.name != "" &&
    exists j: nat :: Writes(tokens, i, target.operation, j) && ReadName(tokens, j, None) == Some(target.name)
  }

  lemma InsertsFound(tokens: seq<Token>, i: nat, remembered: Option<string>, target: WriteTarget)
    requires i < |tokens| && target.operation.InsertOp?
    ensures target in Visit(tokens, i, remembered).targets <==> Finds(tokens, i, target)
  {
    hide ReadName, WordAt, LatestInsert;
    Keywords(tokens, i);
    OneWord(tokens, i + 1, "INTO", "OR");
    var two, four := i + 2, i + 4;
    assert target in Visit(tokens, i, remembered).targets ==>
             Writes(tokens, i, InsertOp, two) || Writes(tokens, i, InsertOp, four);
  }

  lemma ReplacesFound(tokens: seq<Token>, i: nat, remembered: Option<string>, target: WriteTarget)
    requires i < |tokens| && target.operation.ReplaceOp?
    ensures target in Visit(tokens, i, remembered).targets <==> Finds(tokens, i, target)
  {
    hide ReadName, WordAt, LatestInsert;
    Keywords(tokens, i);
    var two := i + 2;
    assert target in Visit(tokens, i, remembered).targets ==> Writes(tokens, i, ReplaceOp, two);
  }

  lemma UpdatesFound(tokens: seq<Token>, i: nat, remembered: Option<string>, target: WriteTarget)
    requires i < |tokens| && target.operation.UpdateOp?
    ensures target in Visit(tokens, i, remembered).targets <==> Finds(tokens, i, target)
  {
    hide ReadName, WordAt, LatestInsert;
    Keywords(tokens, i);
    var one, three := i + 1, i + 3;
    assert target in Visit(tokens, i, remembered).targets ==>
             Writes(tokens, i, UpdateOp, one) || Writes(tokens, i, UpdateOp, three);
  }

  lemma DeletesFound(tokens: seq<Token>, i: nat, remembered: Option<string>, target: WriteTarget)
    requires i < |tokens| && target.operation.DeleteOp?
    ensures target in Visit(tokens, i, remembered).targets <==> Finds(tokens, i, target)
  {
    hide ReadName, WordAt, LatestInsert;
    Keywords(tokens, i);
    var two := i + 2;
    assert target in Visit(tokens, i, remembered).targets ==> Writes(tokens, i, DeleteOp, two);
  }

  lemma DropsFound(tokens: seq<Token>, i: nat, remembered: Option<string>, target: WriteTarget)
    requires i < |tokens| && (target.operation.DropTableOp? || target.operation.DropTriggerOp?)
    ensures target in Visit(tokens, i, remembered).targets <==> Finds(tokens, i, target)
  {
    hide ReadName, WordAt, LatestInsert;
    Keywords(tokens, i);
    OneWord(tokens, i + 1, "TABLE", "TRIGGER");
    var two, four := i + 2, i + 4;
    assert target in Visit(tokens, i, remembered).targets ==>
             Writes(tokens, i, target.operation, two) || Writes(tokens, i, target.operation, four);
  }

  lemma AltersFound(tokens: seq<Token>, i: nat, remembered: Option<string>, target: WriteTarget)
    requires i < |tokens| && target.operation.AlterTableOp?
    ensures target in Visit(tokens, i, remembered).targets <==> Finds(tokens, i, target)
  {
    hide ReadName, WordAt, LatestInsert;
    Keywords(tokens, i);
    var two := i + 2;
    assert target in Visit(tokens, i, remembered).targets ==> Writes(tokens, i, AlterTableOp, two);
  }

  lemma UpsertsFound(tokens: seq<Token>, i: nat, remembered: Option<string>, target: WriteTarget)
    requires i < |tokens| && Remembers(tokens, i, remembered) && target.operation.UpsertUpdateOp?
    ensures target in Visit(tokens, i, remembered).targets <==> Finds(tokens, i, target)
  {
    hide ReadName, WordAt, LatestInsert;
    Keywords(tokens, i);
    if target in Visit(tokens, i, remembered).targets {
      var j: nat :| LatestInsert(tokens, i, j);
      assert Writes(tokens, i, UpsertUpdateOp, j);
    }
  }

  /** One token adds a target exactly when a write form there gives the name. */
  lemma VisitFinds(tokens: seq<Token>, i: nat, remembered: Option<string>, target: WriteTarget)
    requires i < |tokens| && Remembers(tokens, i, remembered)
    ensures target in Visit(tokens, i, remembered).targets <==> Finds(tokens, i, target)
  {
    hide ReadName, WordAt, LatestInsert;
    hide Visit, Finds, Remembers;
    match target.operation {
      case InsertOp => InsertsFound(tokens, i, remembered, target);
      case ReplaceOp => ReplacesFound(tokens, i, remembered, target);
      case UpdateOp => UpdatesFound(tokens, i, remembered, target);
      case DeleteOp => DeletesFound(tokens, i, remembered, target);
      case DropTableOp => DropsFound(tokens, i, remembered, target);
      case DropTriggerOp => DropsFound(tokens, i, remembered, target);
      case AlterTableOp => AltersFound(tokens, i, remembered, target);
      case UpsertUpdateOp => UpsertsFound(tokens, i, remembered, target);
    }
  }

  lemma {:induction false} TargetsFound(tokens: seq<Token>, n: nat, target: WriteTarget)
    requires n <= |tokens|
    ensures target in TargetsIn(tokens, n).targets <==>
            target.name != "" &&
            exists i: nat, j: nat :: i < n && Writes(tokens, i, target.operation, j) && ReadName(tokens, j, None) == Some(target.name)
  {
    hide Visit, Writes, ReadName, Remembers;
    if n > 0 {
      TargetsFound(tokens, n - 1, target);
      TargetsRemember(tokens, n - 1);
      VisitFinds(tokens, n - 1, TargetsIn(tokens, n - 1).insertTarget, target);
    }
  }

  /**
   * The write targets of a statement are exactly the names its write forms give: the last part of each
   * possibly qualified name, and for DO UPDATE the name of the latest insert.
   */
  lemma TargetsAreWrites(tokens: seq<Token>, target: WriteTarget)
    ensures target in TargetsIn(tokens, |tokens|).targets <==>
            target.name != "" &&
            exists i: nat, j: nat :: i < |tokens| && Writes(tokens, i, target.operation, j) && NameIs(tokens, j, target.name)
  {
    hide Writes, ReadName, NameIs;
    TargetsFound(tokens, |tokens|, target);
    forall j: nat
      ensures ReadName(tokens, j, None) == Some(target.name) <==> NameIs(tokens, j, target.name)
    {
      ReadNameIsLastPart(tokens, j, target.name);
    }
  }

  lemma WriteIsTarget(tokens: seq<Token>, i: nat, operation: WriteOperation, j: nat, name: string)
    requires Writes(tokens, i, operation, j) && NameIs(tokens, j, name) && name != ""
    ensures WriteTarget(operation, name) in TargetsIn(tokens, |tokens|).targets
  {
    hide WordAt, LatestInsert, NameIs, TargetsIn;
    StartsInside(tokens, i, operation, j);
    TargetsAreWrites(tokens, WriteTarget(operation, name));
  }

  lemma StartsInside(tokens: seq<Token>, i: nat, operation: WriteOperation, j: nat)
    requires Writes(tokens, i, operation, j)
    ensures i < |tokens|
  {
    hide IsWord;
  }
}
