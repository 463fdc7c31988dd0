/** packages/db/src/sql-lexer.ts: which semicolons end a statement, told without the splitter's state. */
module SqlPieces {
  import opened Casing
  import opened SqlLexer
  import opened SqlSplit

  /* ----- The semicolons that end a statement ----- */

  predicate HasBegin(tokens: seq<Token>) {
    exists i :: 0 <= i < |tokens| && IsWord(tokens[i], {"BEGIN"})
  }

  /** How many BEGIN and CASE have no END yet. */
  function Blocks(tokens: seq<Token>): nat {
    if tokens == [] then 0
    else
      var before, last := Blocks(tokens[..|tokens| - 1]), tokens[|tokens| - 1];
      if IsWord(last, {"BEGIN", "CASE"}) then before + 1
      else if IsWord(last, {"END"}) && before > 0 then before - 1
      else before
  }

  /** The tokens since the statement began leave a trigger without the end of its body. */
  predicate InBody(tokens: seq<Token>) {
    IsTrigger(tokens) && (!HasBegin(tokens) || Blocks(tokens) > 0)
  }

  /** The semicolon at `i` ends the statement that the tokens begin with. */
  predicate EndsAt(tokens: seq<Token>, i: nat) {
    i < |tokens| && tokens[i].kind == Semicolon && !InBody(tokens[..i])
  }

  /** Where the first statement ends: at a semicolon, or with the tokens. */
  function FirstEnd(tokens: seq<Token>, from: nat): (end: nat)
    requires from <= |tokens|
    ensures from <= end <= |tokens|
    ensures end < |tokens| ==> EndsAt(tokens, end)
    ensures forall i: nat :: from <= i < end ==> !EndsAt(tokens, i)
    decreases |tokens| - from
  {
    if from == |tokens| || EndsAt(tokens, from) then from else FirstEnd(tokens, from + 1)
  }

  /** The stretches between the semicolons that end statements, without empty ones. */
  function Pieces(tokens: seq<Token>): seq<seq<Token>>
    decreases |tokens|
  {
    var end := FirstEnd(tokens, 0);
    (if end == 0 then [] else [tokens[..end]]) + if end == |tokens| then [] else Pieces(tokens[end + 1..])
  }

  /* ----- The splitter finds them ----- */

  lemma KeywordsDiffer(t: Token)
    ensures IsWord(t, {"CREATE"}) || IsWord(t, {"TRIGGER"}) || IsWord(t, {"TEMP", "TEMPORARY"}) ==>
              !IsWord(t, {"BEGIN"}) && !IsWord(t, {"BEGIN", "CASE"})
  {
    hide Upper;
  }

  /** A trigger is recognized at its keyword, before any block. */
  lemma TriggerBegins(front: seq<Token>, t: Token)
    requires IsTrigger(front + [t]) && !IsTrigger(front)
    ensures Blocks(front) == Blocks(front + [t]) == 0 && !HasBegin(front + [t])
    ensures !IsWord(t, {"BEGIN", "CASE"})
  {
    hide IsWord;
    var all := front + [t];
    assert |front| == 1 || |front| == 2;
    KeywordsDiffer(all[0]);
    KeywordsDiffer(all[1]);
    BlocksPush([], front[0]);
    if |front| == 2 {
      KeywordsDiffer(all[2]);
      BlocksPush([front[0]], front[1]);
      assert front == [front[0]] + [front[1]];
    }
    assert [] + [front[0]] == [front[0]] && (|front| == 1 ==> front == [front[0]]);
    BlocksPush(front, t);
  }

  lemma HasBeginPush(front: seq<Token>, t: Token)
    ensures HasBegin(front + [t]) <==> HasBegin(front) || IsWord(t, {"BEGIN"})
  {
    hide IsWord;
    var all := front + [t];
    assert all[|front|] == t && forall i :: 0 <= i < |front| ==> all[i] == front[i];
  }

  /** While no semicolon ends the statement, the splitter keeps every token and knows whether it is in a body. */
  lemma {:induction false} Unbroken(tokens: seq<Token>)
    requires forall i: nat :: !EndsAt(tokens, i)
    ensures Tells(Run(START, tokens), tokens)
  {
    hide Step, InBody, Tells;
    if tokens != [] {
      var n := |tokens| - 1;
      var front, t := tokens[..n], tokens[n];
      forall i: nat
        ensures !EndsAt(front, i)
      {
        assert i < n ==> front[..i] == tokens[..i];
        assert !EndsAt(tokens, i);
      }
      Unbroken(front);
      assert !EndsAt(tokens, n) && tokens == front + [t];
      UnbrokenStep(Run(START, front), front, t);
    } else {
      NothingTold();
    }
  }

  /** What the splitter's state says of the tokens of an unfinished statement. */
  ghost predicate Tells(s: Split, tokens: seq<Token>) {
    && s.done == [] && s.current == tokens
    && (if IsTrigger(tokens) then s.depth == Blocks(tokens) && s.bodyStarted == HasBegin(tokens)
        else s.depth == 0 && !s.bodyStarted)
  }

  lemma BlocksPush(front: seq<Token>, t: Token)
    ensures Blocks(front + [t]) ==
            if IsWord(t, {"BEGIN", "CASE"}) then Blocks(front) + 1
            else if IsWord(t, {"END"}) && Blocks(front) > 0 then Blocks(front) - 1
            else Blocks(front)
  {
    hide IsWord;
    assert (front + [t])[..|front|] == front;
  }

  lemma UnbrokenStep(s: Split, front: seq<Token>, t: Token)
    requires Tells(s, front) && (t.kind == Semicolon ==> InBody(front))
    ensures Tells(Step(s, t), front + [t])
  {
    hide IsTrigger, IsWord, HasBegin, Blocks;
    HasBeginPush(front, t);
    BlocksPush(front, t);
    WordsDiffer(t);
    if IsTrigger(front) {
      TriggerGrows(front, [t]);
    } else if IsTrigger(front + [t]) {
      TriggerBegins(front, t);
    }
  }

  lemma NothingTold()
    ensures Tells(START, [])
  {
  }

  /** The pieces between the semicolons that end statements are the statements. */
  lemma {:induction false} SplitsAtEnds(tokens: seq<Token>)
    ensures Statements(tokens) == Pieces(tokens)
    decreases |tokens|
  {
    hide Run, Step, InBody;
    var end := FirstEnd(tokens, 0);
    var front := tokens[..end];
    FrontUnbroken(tokens, end);
    Unbroken(front);
    if end < |tokens| {
      var rest := tokens[end + 1..];
      assert tokens == (front + [tokens[end]]) + rest;
      RunAppend(START, front + [tokens[end]], rest);
      RunPush(front, tokens[end]);
      EndFlushes(Run(START, front), front, tokens[end]);
      StatementsAfter(if front == [] then [] else [front], rest);
      SplitsAtEnds(rest);
    } else {
      assert front == tokens;
    }
  }

  lemma FrontUnbroken(tokens: seq<Token>, end: nat)
    requires end <= |tokens| && forall i: nat :: i < end ==> !EndsAt(tokens, i)
    ensures forall i: nat :: !EndsAt(tokens[..end], i)
  {
    hide InBody;
    forall i: nat
      ensures !EndsAt(tokens[..end], i)
    {
      if i < end {
        assert !EndsAt(tokens, i) && tokens[..end][..i] == tokens[..i];
      }
    }
  }

  lemma EndFlushes(s: Split, front: seq<Token>, t: Token)
    requires Tells(s, front) && t.kind == Semicolon && !InBody(front)
    ensures Step(s, t) == START.(done := if front == [] then [] else [front])
  {
    hide IsTrigger, HasBegin, Blocks;
  }

  /** A statement has a semicolon only inside the body of a trigger: without triggers every semicolon ends one. */
  lemma {:induction false} SemicolonsAreInBodies(tokens: seq<Token>, stmt: seq<Token>, i: nat)
    requires stmt in Statements(tokens) && i < |stmt| && stmt[i].kind == Semicolon
    ensures InBody(stmt[..i]) && IsTrigger(stmt)
    decreases |tokens|
  {
    hide InBody, Statements, IsTrigger, Pieces;
    SplitsAtEnds(tokens);
    PieceIsFirstOrLater(tokens, stmt);
    var end := FirstEnd(tokens, 0);
    if stmt == tokens[..end] {
      assert !EndsAt(tokens, i) && stmt[..i] == tokens[..i];
      BodyIsOfTrigger(stmt, i);
    } else {
      SplitsAtEnds(tokens[end + 1..]);
      SemicolonsAreInBodies(tokens[end + 1..], stmt, i);
    }
  }

  lemma PieceIsFirstOrLater(tokens: seq<Token>, stmt: seq<Token>)
    requires stmt in Pieces(tokens)
    ensures var end := FirstEnd(tokens, 0);
            stmt == tokens[..end] || (end < |tokens| && stmt in Pieces(tokens[end + 1..]))
  {
  }

  lemma BodyIsOfTrigger(stmt: seq<Token>, i: nat)
    requires i <= |stmt| && InBody(stmt[..i])
    ensures IsTrigger(stmt)
  {
    hide IsTrigger, HasBegin, Blocks;
    TriggerGrows(stmt[..i], stmt[i..]);
    assert stmt == stmt[..i] + stmt[i..];
  }

  /** At any point the splitter drops a semicolon exactly when the unfinished statement is in no body. */
  lemma {:induction false} OpenMeansInBody(tokens: seq<Token>)
    ensures Open(Run(START, tokens)) <==> InBody(Run(START, tokens).current)
    decreases |tokens|, 1
  {
    hide Run, IsTrigger, HasBegin, Blocks;
    CurrentUnbroken(tokens);
    CurrentDecides(tokens);
    Unbroken(Run(START, tokens).current);
  }

  lemma {:induction false} CurrentUnbroken(tokens: seq<Token>)
    ensures forall i: nat :: !EndsAt(Run(START, tokens).current, i)
    decreases |tokens|, 0
  {
    hide Step, InBody;
    if tokens != [] {
      var n := |tokens| - 1;
      CurrentUnbroken(tokens[..n]);
      var r, t := Run(START, tokens[..n]), tokens[n];
      StepKinds(r, t);
      OpenMeansInBody(tokens[..n]);
      var current := Run(START, tokens).current;
      forall i: nat
        ensures !EndsAt(current, i)
      {
        if i < |current| {
          assert !EndsAt(r.current, i);
          assert current[..i] == r.current[..i];
        }
      }
    }
  }
}
