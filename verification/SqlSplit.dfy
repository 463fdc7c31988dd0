/** packages/db/src/sql-lexer.ts: statements, and the lexical facts about one statement. */
module SqlSplit {
  import opened Wrappers
  import opened Casing
  import opened SqlLexer
  import opened SqlLocality
  import opened SqlCompositional

  /* ----- Keywords ----- */

  predicate IsWord(t: Token, words: set<string>) {
    t.kind == Word && Upper(t.text) in words
  }

  predicate WordAt(tokens: seq<Token>, i: int, words: set<string>) {
    0 <= i < |tokens| && IsWord(tokens[i], words)
  }

  /* ----- splitSqlStatements, token by token ----- */

  predicate IsTrigger(tokens: seq<Token>) {
    && WordAt(tokens, 0, {"CREATE"})
    && (WordAt(tokens, 1, {"TRIGGER"}) || (WordAt(tokens, 1, {"TEMP", "TEMPORARY"}) && WordAt(tokens, 2, {"TRIGGER"})))
  }

  datatype Split = Split(done: seq<seq<Token>>, current: seq<Token>, depth: nat, bodyStarted: bool)

  const START := Split([], [], 0, false)

  function Flush(s: Split): Split {
    Split(if s.current == [] then s.done else s.done + [s.current], [], 0, false)
  }

  function Step(s: Split, t: Token): Split {
    if t.kind == Semicolon then
      if IsTrigger(s.current) && (!s.bodyStarted || s.depth > 0) then s.(current := s.current + [t]) else Flush(s)
    else
      var next := s.(current := s.current + [t]);
      if !IsTrigger(next.current) then next
      else if IsWord(t, {"BEGIN", "CASE"}) then
        next.(bodyStarted := s.bodyStarted || IsWord(t, {"BEGIN"}), depth := s.depth + 1)
      else if IsWord(t, {"END"}) then next.(depth := if s.depth == 0 then 0 else s.depth - 1)
      else next
  }

  function Run(s: Split, tokens: seq<Token>): Split {
    if tokens == [] then s else Step(Run(s, tokens[..|tokens| - 1]), tokens[|tokens| - 1])
  }

  /** The tokens of each statement. */
  function Statements(tokens: seq<Token>): seq<seq<Token>> {
    Flush(Run(START, tokens)).done
  }

  datatype StatementText = StatementText(text: string, tokens: seq<Token>)

  /** sql.slice(first.start, last.end) */
  function TextOf(sql: string, tokens: seq<Token>): string {
    if tokens == [] then ""
    else
      var from, to := tokens[0].start, tokens[|tokens| - 1].end;
      if from <= to <= |sql| then sql[from..to] else ""
  }

  function Texts(sql: string, statements: seq<seq<Token>>): seq<StatementText> {
    seq(|statements|, i requires 0 <= i < |statements| => StatementText(TextOf(sql, statements[i]), statements[i]))
  }

  /** The statements of a text; None where lexing throws. */
  function SplitOf(sql: string): Option<seq<StatementText>> {
    if Tokens(sql).None? then None else Some(Texts(sql, Statements(Tokens(sql).value)))
  }

  lemma TextsPush(sql: string, statements: seq<seq<Token>>, last: seq<Token>)
    ensures Texts(sql, statements + [last]) == Texts(sql, statements) + [StatementText(TextOf(sql, last), last)]
  {
    hide TextOf;
  }

  lemma NoTexts(sql: string)
    ensures Texts(sql, []) == []
  {
  }

  method SplitSqlStatements(sql: string) returns (r: Option<seq<StatementText>>)
    ensures r == SplitOf(sql)
  {
    hide Tokens, TextOf, Texts, Run, IsTrigger, IsWord;
    var lexed := TokenizeSql(sql);
    if lexed.None? {
      return None;
    }
    var tokens := lexed.value;
    var statements: seq<StatementText> := [];
    var current: seq<Token> := [];
    var depth: nat := 0;
    var bodyStarted := false;
    ghost var done: seq<seq<Token>> := [];
    assert tokens[..0] == [];
    RunNothing();
    assert statements == Texts(sql, done) by { NoTexts(sql); }
    for k := 0 to |tokens|
      invariant Run(START, tokens[..k]) == Split(done, current, depth, bodyStarted)
      invariant statements == Texts(sql, done)
    {
      var token := tokens[k];
      assert tokens[..k + 1] == tokens[..k] + [token];
      RunPush(tokens[..k], token);
      TextsPush(sql, done, current);
      if token.kind == Semicolon {
        if IsTrigger(current) && (!bodyStarted || depth > 0) {
          current := current + [token];
        } else {
          if current != [] {
            statements := statements + [StatementText(TextOf(sql, current), current)];
            done := done + [current];
          }
          current, depth, bodyStarted := [], 0, false;
        }
      } else {
        current := current + [token];
        if IsTrigger(current) {
          if IsWord(token, {"BEGIN", "CASE"}) {
            if IsWord(token, {"BEGIN"}) {
              bodyStarted := true;
            }
            depth := depth + 1;
          } else if IsWord(token, {"END"}) {
            depth := if depth == 0 then 0 else depth - 1;
          }
        }
      }
    }
    assert tokens[..|tokens|] == tokens;
    TextsPush(sql, done, current);
    if current != [] {
      statements := statements + [StatementText(TextOf(sql, current), current)];
      done := done + [current];
    }
    return Some(statements);
  }

  /* ----- Runs ----- */

  lemma {:induction false} RunAppend(s: Split, a: seq<Token>, b: seq<Token>)
    ensures Run(s, a + b) == Run(Run(s, a), b)
  {
    if b == [] {
      assert a + b == a;
    } else {
      var n := |b| - 1;
      assert (a + b)[..|a + b| - 1] == a + b[..n];
      RunAppend(s, a, b[..n]);
      hide Step;
    }
  }

  /** Statements already finished play no part in what follows. */
  lemma {:induction false} RunDone(s: Split, tokens: seq<Token>)
    ensures Run(s, tokens) == Run(s.(done := []), tokens).(done := s.done + Run(s.(done := []), tokens).done)
  {
    if tokens == [] {
      assert s.done + [] == s.done;
    } else {
      var n := |tokens| - 1;
      RunDone(s, tokens[..n]);
      var r := Run(s.(done := []), tokens[..n]);
      hide IsTrigger, IsWord, Run;
      StepDone(r, s.done, tokens[n]);
    }
  }

  lemma StepDone(s: Split, before: seq<seq<Token>>, t: Token)
    ensures Step(s.(done := before + s.done), t) == Step(s, t).(done := before + Step(s, t).done)
  {
    hide IsTrigger, IsWord;
    assert before + s.done + [s.current] == before + (s.done + [s.current]);
  }

  lemma StatementsAfter(done: seq<seq<Token>>, tokens: seq<Token>)
    ensures Flush(Run(START.(done := done), tokens)).done == done + Statements(tokens)
  {
    hide Run;
    RunDone(START.(done := done), tokens);
    var r := Run(START, tokens);
    assert done + r.done + [r.current] == done + (r.done + [r.current]);
  }

  /* ----- Nothing is lost ----- */

  /** The tokens without the semicolons met while no body of a trigger is open. */
  function Kept(tokens: seq<Token>): seq<Token> {
    if tokens == [] then []
    else
      var front, last := tokens[..|tokens| - 1], tokens[|tokens| - 1];
      Kept(front) + if last.kind == Semicolon && !Open(Run(START, front)) then [] else [last]
  }

  function Flat(statements: seq<seq<Token>>): seq<Token> {
    if statements == [] then [] else Flat(statements[..|statements| - 1]) + statements[|statements| - 1]
  }

  lemma FlatPush(statements: seq<seq<Token>>, last: seq<Token>)
    ensures Flat(statements + [last]) == Flat(statements) + last
  {
    assert (statements + [last])[..|statements|] == statements;
  }

  /** A token joins the current statement, unless it is a semicolon outside any body, which ends it. */
  lemma StepKinds(s: Split, t: Token)
    ensures var next := Step(s, t);
            if t.kind == Semicolon && !Open(s) then next == Flush(s)
            else next.current == s.current + [t] && next.done == s.done
  {
    hide IsTrigger, IsWord;
  }

  lemma FlushKeeps(r: Split)
    ensures Flat(Flush(r).done) + Flush(r).current == Flat(r.done) + r.current
  {
    FlatPush(r.done, r.current);
  }

  lemma {:induction false} RunConserves(tokens: seq<Token>)
    ensures var r := Run(START, tokens); Flat(r.done) + r.current == Kept(tokens)
  {
    hide Step, Open, Flat, Flush;
    if tokens == [] {
      NothingKept();
    } else {
      var n := |tokens| - 1;
      RunConserves(tokens[..n]);
      var r, t := Run(START, tokens[..n]), tokens[n];
      StepKinds(r, t);
      FlushKeeps(r);
      assert Flat(r.done) + (r.current + [t]) == Flat(r.done) + r.current + [t];
      assert Kept(tokens[..n]) + [] == Kept(tokens[..n]);
    }
  }

  lemma NothingKept()
    ensures Flat([]) + [] == Kept([])
  {
  }

  /** The statements' tokens, in order, are the token stream minus exactly the top-level semicolons. */
  lemma SplittingConserves(tokens: seq<Token>)
    ensures Flat(Statements(tokens)) == Kept(tokens)
  {
    hide Run, Open, Flat;
    RunConserves(tokens);
    var r := Run(START, tokens);
    FlatPush(r.done, r.current);
    NothingKept();
    assert Flat(r.done) + [] == Flat(r.done);
  }

  /* ----- Each statement on its own ----- */

  /** A step does not look at the statements already finished. */
  lemma StepAlone(s: Split, t: Token)
    ensures Step(s, t).current == s.current + [t] ==> Step(s.(done := []), t) == Step(s, t).(done := [])
  {
    hide IsTrigger, IsWord;
  }

  lemma RunPush(tokens: seq<Token>, t: Token)
    ensures Run(START, tokens + [t]) == Step(Run(START, tokens), t)
  {
    hide Step;
    assert (tokens + [t])[..|tokens|] == tokens;
  }

  ghost predicate IsWhole(stmt: seq<Token>) {
    stmt != [] && Statements(stmt) == [stmt]
  }

  /** The state between statements depends on the current statement alone, and finished statements stand alone. */
  lemma {:induction false} CurrentDecides(tokens: seq<Token>)
    ensures var r := Run(START, tokens); Run(START, r.current) == r.(done := [])
    ensures forall stmt :: stmt in Run(START, tokens).done ==> IsWhole(stmt)
  {
    hide Step;
    if tokens != [] {
      var n := |tokens| - 1;
      CurrentDecides(tokens[..n]);
      var r, t := Run(START, tokens[..n]), tokens[n];
      StepKinds(r, t);
      StepAlone(r, t);
      RunPush(r.current, t);
      RunNothing();
      assert r.current != [] ==> IsWhole(r.current);
    }
  }

  lemma RunNothing()
    ensures Run(START, []) == START
  {
  }

  /** Splitting a statement's own tokens gives that one statement back. */
  lemma StatementsAreWhole(tokens: seq<Token>, stmt: seq<Token>)
    requires stmt in Statements(tokens)
    ensures IsWhole(stmt)
  {
    CurrentDecides(tokens);
    var r := Run(START, tokens);
    assert r.current != [] ==> Statements(r.current) == [r.current];
  }

  /* ----- Trigger bodies ----- */

  /** Tokens in which every CASE or BEGIN has its END; any of them may be a semicolon. */
  datatype Balanced =
    | Nil
    | Plain(token: Token, rest: Balanced)
    | Block(open: Token, inner: Balanced, close: Token, rest: Balanced)

  predicate Proper(b: Balanced, openers: set<string>) {
    match b
    case Nil => true
    case Plain(t, rest) => !IsWord(t, {"BEGIN", "CASE"}) && !IsWord(t, {"END"}) && Proper(rest, openers)
    case Block(open, inner, close, rest) =>
      IsWord(open, openers) && IsWord(close, {"END"}) && Proper(inner, openers) && Proper(rest, openers)
  }

  function Flatten(b: Balanced): seq<Token> {
    match b
    case Nil => []
    case Plain(t, rest) => [t] + Flatten(rest)
    case Block(open, inner, close, rest) => [open] + Flatten(inner) + [close] + Flatten(rest)
  }

  /** Semicolons do not end the current statement. */
  predicate Open(s: Split) {
    IsTrigger(s.current) && (!s.bodyStarted || s.depth > 0)
  }

  lemma TriggerGrows(tokens: seq<Token>, more: seq<Token>)
    requires IsTrigger(tokens)
    ensures IsTrigger(tokens + more)
  {
    hide IsWord;
    assert |tokens| > 1;
    assert (tokens + more)[0] == tokens[0] && (tokens + more)[1] == tokens[1];
    assert |tokens| > 2 ==> (tokens + more)[2] == tokens[2];
  }

  /** CASE, BEGIN and END are different words. */
  lemma WordsDiffer(t: Token)
    ensures IsWord(t, {"BEGIN", "CASE"}) ==> !IsWord(t, {"END"}) && t.kind != Semicolon
    ensures IsWord(t, {"END"}) ==> t.kind != Semicolon
    ensures IsWord(t, {"CASE"}) ==> IsWord(t, {"BEGIN", "CASE"}) && !IsWord(t, {"BEGIN"})
    ensures IsWord(t, {"BEGIN"}) ==> IsWord(t, {"BEGIN", "CASE"})
  {
  }

  lemma OpenStep(s: Split, t: Token)
    requires Open(s)
    ensures var next := Step(s, t);
            && next.done == s.done && next.current == s.current + [t] && IsTrigger(next.current)
            && (!IsWord(t, {"BEGIN", "CASE"}) && !IsWord(t, {"END"}) ==> next.depth == s.depth && next.bodyStarted == s.bodyStarted)
            && (IsWord(t, {"BEGIN", "CASE"}) ==> next.depth == s.depth + 1 && next.bodyStarted == (s.bodyStarted || IsWord(t, {"BEGIN"})))
            && (IsWord(t, {"END"}) ==> next.depth == (if s.depth == 0 then 0 else s.depth - 1) && next.bodyStarted == s.bodyStarted)
  {
    TriggerGrows(s.current, [t]);
    WordsDiffer(t);
    hide IsTrigger, IsWord;
  }

  lemma RunOne(s: Split, t: Token)
    ensures Run(s, [t]) == Step(s, t)
  {
    hide Step;
    assert [t][..0] == [];
  }

  /** A balanced stretch inside a trigger goes by without ending the statement or changing the depth. */
  lemma {:induction false} BalancedRun(s: Split, b: Balanced)
    requires Open(s) && Proper(b, if s.bodyStarted then {"BEGIN", "CASE"} else {"CASE"})
    ensures Run(s, Flatten(b)) == s.(current := s.current + Flatten(b))
    ensures IsTrigger(s.current + Flatten(b))
    decreases b
  {
    hide Run, Step, IsTrigger, IsWord;
    TriggerGrows(s.current, Flatten(b));
    match b {
      case Nil =>
        RunEmpty(s);
        assert s.current + [] == s.current;
      case Plain(t, rest) =>
        OpenStep(s, t);
        RunOne(s, t);
        var next := Step(s, t);
        BalancedRun(next, rest);
        RunAppend(s, [t], Flatten(rest));
        assert s.current + [t] + Flatten(rest) == s.current + ([t] + Flatten(rest));
      case Block(open, inner, close, rest) =>
        WordsDiffer(open);
        OpenerIs(open, s.bodyStarted);
        OpenStep(s, open);
        RunOne(s, open);
        var s1 := Step(s, open);
        BalancedRun(s1, inner);
        var s2 := s1.(current := s1.current + Flatten(inner));
        OpenStep(s2, close);
        RunOne(s2, close);
        var s3 := Step(s2, close);
        BalancedRun(s3, rest);
        RunFour(s, open, Flatten(inner), close, Flatten(rest));
        FourParts(s.current, open, Flatten(inner), close, Flatten(rest));
    }
  }

  lemma RunFour(s: Split, open: Token, inner: seq<Token>, close: Token, rest: seq<Token>)
    ensures Run(s, [open] + inner + [close] + rest) == Run(Run(Run(Run(s, [open]), inner), [close]), rest)
  {
    hide Run;
    RunAppend(s, [open], inner);
    RunAppend(s, [open] + inner, [close]);
    RunAppend(s, [open] + inner + [close], rest);
  }

  lemma FourParts(current: seq<Token>, open: Token, inner: seq<Token>, close: Token, rest: seq<Token>)
    ensures current + [open] + inner + [close] + rest == current + ([open] + inner + [close] + rest)
  {
  }

  lemma OpenerIs(t: Token, started: bool)
    requires IsWord(t, if started then {"BEGIN", "CASE"} else {"CASE"})
    ensures IsWord(t, {"BEGIN", "CASE"}) && (!started ==> !IsWord(t, {"BEGIN"}))
  {
    WordsDiffer(t);
  }

  lemma RunEmpty(s: Split)
    ensures Run(s, []) == s
  {
  }

  /** CREATE TRIGGER, or CREATE TEMP TRIGGER. */
  predicate TriggerHead(head: seq<Token>) {
    IsTrigger(head) && (|head| == 2 || (|head| == 3 && !IsTrigger(head[..2])))
  }

  lemma HeadRun(head: seq<Token>)
    requires TriggerHead(head)
    ensures Run(START, head) == START.(current := head)
  {
    var a := START.(current := [head[0]]);
    assert [head[0], head[1]] == head[..2] && [] + [head[0]] == [head[0]];
    assert Step(START, head[0]) == a;
    assert [head[0]] + [head[1]] == head[..2];
    var b := START.(current := head[..2]);
    assert Step(a, head[1]) == b;
    RunEmpty(START);
    assert head[..1] == [head[0]] && head[..1][..0] == [] && head[..2][..1] == head[..1];
    assert Run(START, head[..1]) == Step(Run(START, []), head[0]);
    assert Run(START, head[..2]) == Step(Run(START, head[..1]), head[1]);
    if |head| == 3 {
      assert head[..2] + [head[2]] == head;
      assert Step(b, head[2]) == START.(current := head);
      assert Run(START, head) == Step(Run(START, head[..2]), head[2]);
    } else {
      assert head[..2] == head;
    }
  }

  /** The whole trigger as one stretch of tokens. */
  function TriggerTokens(head: seq<Token>, header: Balanced, begin: Token, body: Balanced, end: Token): seq<Token> {
    head + Flatten(header) + [begin] + Flatten(body) + [end]
  }

  lemma TriggerRun(head: seq<Token>, header: Balanced, begin: Token, body: Balanced, end: Token)
    requires TriggerHead(head) && Proper(header, {"CASE"}) && Proper(body, {"BEGIN", "CASE"})
    requires IsWord(begin, {"BEGIN"}) && IsWord(end, {"END"})
    ensures Run(START, TriggerTokens(head, header, begin, body, end))
         == Split([], TriggerTokens(head, header, begin, body, end), 0, true)
  {
    hide Run, Step, IsTrigger, IsWord, Proper, Flatten;
    HeadRun(head);
    TriggerHeadIs(head);
    var s0 := START.(current := head);
    BalancedRun(s0, header);
    var s1 := s0.(current := head + Flatten(header));
    WordsDiffer(begin);
    OpenStep(s1, begin);
    RunOne(s1, begin);
    var s2 := Step(s1, begin);
    BalancedRun(s2, body);
    var s3 := s2.(current := s2.current + Flatten(body));
    OpenStep(s3, end);
    RunOne(s3, end);
    RunAppend(START, head, Flatten(header));
    RunAppend(START, head + Flatten(header), [begin]);
    RunAppend(START, head + Flatten(header) + [begin], Flatten(body));
    RunAppend(START, head + Flatten(header) + [begin] + Flatten(body), [end]);
  }

  lemma TriggerHeadIs(head: seq<Token>)
    requires TriggerHead(head)
    ensures IsTrigger(head)
  {
  }

  /**
   * A trigger stays one statement, whatever semicolons and nested CASE or BEGIN blocks its header and body
   * hold, and the text after its closing semicolon is split on its own.
   */
  lemma TriggerStaysWhole(head: seq<Token>, header: Balanced, begin: Token, body: Balanced, end: Token,
                          semicolon: Token, rest: seq<Token>)
    requires TriggerHead(head) && Proper(header, {"CASE"}) && Proper(body, {"BEGIN", "CASE"})
    requires IsWord(begin, {"BEGIN"}) && IsWord(end, {"END"}) && semicolon.kind == Semicolon
    ensures var whole := TriggerTokens(head, header, begin, body, end);
            Statements(whole + [semicolon] + rest) == [whole] + Statements(rest)
  {
    hide Run, IsTrigger, IsWord, Proper;
    var whole := TriggerTokens(head, header, begin, body, end);
    TriggerRun(head, header, begin, body, end);
    RunOne(Run(START, whole), semicolon);
    RunAppend(START, whole, [semicolon]);
    RunAppend(START, whole + [semicolon], rest);
    assert [] + [whole] == [whole];
    StatementsAfter([whole], rest);
  }

  /* ----- Re-splitting the text of a statement ----- */

  ghost predicate IsStretch(tokens: seq<Token>, stmt: seq<Token>, a: nat) {
    a + |stmt| <= |tokens| && tokens[a..a + |stmt|] == stmt
  }

  lemma {:induction false} RunStretches(tokens: seq<Token>)
    ensures var r := Run(START, tokens);
            && |r.current| <= |tokens| && IsStretch(tokens, r.current, |tokens| - |r.current|)
            && forall stmt :: stmt in r.done ==> exists a: nat :: IsStretch(tokens, stmt, a)
  {
    hide Step, Open, IsStretch;
    if tokens == [] {
      EmptyStretch(tokens);
    } else {
      var n := |tokens| - 1;
      RunStretches(tokens[..n]);
      var r, t := Run(START, tokens[..n]), tokens[n];
      StepKinds(r, t);
      assert tokens == tokens[..n] + [t];
      forall stmt, a: nat | IsStretch(tokens[..n], stmt, a)
        ensures IsStretch(tokens, stmt, a)
      {
        StretchStays(tokens[..n], t, stmt, a);
      }
      EmptyStretch(tokens);
      StretchGrows(tokens[..n], t, r.current);
    }
  }

  lemma EmptyStretch(tokens: seq<Token>)
    ensures IsStretch(tokens, [], |tokens|)
  {
  }

  lemma StretchStays(tokens: seq<Token>, t: Token, stmt: seq<Token>, a: nat)
    requires IsStretch(tokens, stmt, a)
    ensures IsStretch(tokens + [t], stmt, a)
  {
    assert (tokens + [t])[a..a + |stmt|] == tokens[a..a + |stmt|];
  }

  lemma StretchGrows(tokens: seq<Token>, t: Token, current: seq<Token>)
    requires |current| <= |tokens| && IsStretch(tokens, current, |tokens| - |current|)
    ensures IsStretch(tokens + [t], current + [t], |tokens| - |current|)
  {
    var a, all := |tokens| - |current|, tokens + [t];
    assert all[a..] == tokens[a..] + [t];
    assert all[a..a + |current + [t]|] == all[a..];
    assert tokens[a..a + |current|] == tokens[a..];
  }

  /** The tokens of a statement stand side by side in the token stream. */
  lemma StatementStretch(tokens: seq<Token>, stmt: seq<Token>) returns (a: nat)
    requires stmt in Statements(tokens)
    ensures IsStretch(tokens, stmt, a)
  {
    RunStretches(tokens);
    var r := Run(START, tokens);
    if stmt in r.done {
      a :| IsStretch(tokens, stmt, a);
    } else {
      a := |tokens| - |r.current|;
    }
  }

  function Shifted(tokens: seq<Token>, offset: nat): seq<Token>
    requires forall i :: 0 <= i < |tokens| ==> offset <= tokens[i].start <= tokens[i].end
  {
    seq(|tokens|, i requires 0 <= i < |tokens| => tokens[i].(start := tokens[i].start - offset, end := tokens[i].end - offset))
  }

  predicate SameWords(a: seq<Token>, b: seq<Token>) {
    |a| == |b| && forall i :: 0 <= i < |a| ==> a[i].kind == b[i].kind && a[i].text == b[i].text
  }

  predicate SameSplit(s: Split, t: Split) {
    && |s.done| == |t.done| && (forall i :: 0 <= i < |s.done| ==> SameWords(s.done[i], t.done[i]))
    && SameWords(s.current, t.current) && s.depth == t.depth && s.bodyStarted == t.bodyStarted
  }

  lemma SameStep(s: Split, t: Split, x: Token, y: Token)
    requires SameSplit(s, t) && x.kind == y.kind && x.text == y.text
    ensures SameSplit(Step(s, x), Step(t, y))
  {
    SameTrigger(s.current, t.current);
    SameWordsPush(s.current, t.current, x, y);
    SameTrigger(s.current + [x], t.current + [y]);
    SameWord(x, y);
    hide IsTrigger, IsWord, SameWords;
  }

  lemma SameWordsPush(a: seq<Token>, b: seq<Token>, x: Token, y: Token)
    requires SameWords(a, b) && x.kind == y.kind && x.text == y.text
    ensures SameWords(a + [x], b + [y])
  {
  }

  lemma SameWord(x: Token, y: Token)
    requires x.kind == y.kind && x.text == y.text
    ensures forall words :: IsWord(x, words) <==> IsWord(y, words)
  {
  }

  lemma SameTrigger(a: seq<Token>, b: seq<Token>)
    requires SameWords(a, b)
    ensures IsTrigger(a) <==> IsTrigger(b)
  {
    if a != [] {
      SameWord(a[0], b[0]);
    }
    if |a| > 1 {
      SameWord(a[1], b[1]);
    }
    if |a| > 2 {
      SameWord(a[2], b[2]);
    }
    hide IsWord;
  }

  /** Splitting looks at kinds and texts, not at positions. */
  lemma {:induction false} SameRun(a: seq<Token>, b: seq<Token>)
    requires SameWords(a, b)
    ensures SameSplit(Run(START, a), Run(START, b))
  {
    hide Step;
    if a != [] {
      var n := |a| - 1;
      SameRun(a[..n], b[..n]);
      SameStep(Run(START, a[..n]), Run(START, b[..n]), a[n], b[n]);
    }
  }

  lemma {:induction false} TokensShift(lexemes: seq<Lexeme>, start: nat)
    ensures forall i :: 0 <= i < |TokensOf(lexemes, start)| ==>
              start <= TokensOf(lexemes, start)[i].start <= TokensOf(lexemes, start)[i].end
    ensures Shifted(TokensOf(lexemes, start), start) == TokensOf(lexemes, 0)
  {
    TokensMove(lexemes, 0, start);
  }

  lemma {:induction false} TokensMove(lexemes: seq<Lexeme>, base: nat, offset: nat)
    ensures var moved, plain := TokensOf(lexemes, base + offset), TokensOf(lexemes, base);
            && |moved| == |plain|
            && (forall i :: 0 <= i < |plain| ==> base <= plain[i].start <= plain[i].end)
            && (forall i :: 0 <= i < |plain| ==>
                  moved[i] == plain[i].(start := plain[i].start + offset, end := plain[i].end + offset))
    decreases |lexemes|
  {
    if lexemes != [] {
      TokensMove(lexemes[1..], base + |lexemes[0].text|, offset);
      assert base + offset + |lexemes[0].text| == base + |lexemes[0].text| + offset;
    }
  }

  /** A stretch of the tokens comes from a stretch of the pieces that begins and ends with its tokens. */
  lemma {:induction false} DropPieces(lexemes: seq<Lexeme>, start: nat, a: nat) returns (i: nat)
    requires a < |TokensOf(lexemes, start)|
    ensures i < |lexemes| && lexemes[i].kind.Some?
    ensures TokensOf(lexemes[i..], start + |Join(lexemes[..i])|) == TokensOf(lexemes, start)[a..]
    decreases |lexemes|
  {
    var l, next := lexemes[0], start + |lexemes[0].text|;
    if l.kind.Some? && a == 0 {
      i := 0;
      assert lexemes[0..] == lexemes && lexemes[..0] == [];
    } else {
      var j := DropPieces(lexemes[1..], next, if l.kind.Some? then a - 1 else a);
      i := j + 1;
      assert lexemes[1..][j..] == lexemes[i..];
      assert lexemes[..i][1..] == lexemes[1..][..j];
    }
  }

  lemma {:induction false} TakePieces(lexemes: seq<Lexeme>, start: nat, n: nat) returns (j: nat)
    requires 0 < n <= |TokensOf(lexemes, start)|
    ensures 0 < j <= |lexemes| && lexemes[j - 1].kind.Some?
    ensures TokensOf(lexemes[..j], start) == TokensOf(lexemes, start)[..n]
    ensures TokensOf(lexemes, start)[n - 1].end == start + |Join(lexemes[..j])|
    decreases |lexemes|
  {
    var l, next := lexemes[0], start + |lexemes[0].text|;
    if l.kind.Some? && n == 1 {
      j := 1;
      assert lexemes[..1] == [l] && [l][1..] == [];
      assert Join([l]) == l.text + Join([]);
      assert TokensOf([l], start) == [Token(l.kind.value, l.text, start, next)] + TokensOf([], next);
    } else {
      var k := TakePieces(lexemes[1..], next, if l.kind.Some? then n - 1 else n);
      j := k + 1;
      assert lexemes[..j][1..] == lexemes[1..][..k];
      assert Join(lexemes[..j]) == l.text + Join(lexemes[1..][..k]);
    }
  }

  lemma JoinFirst(l: Lexeme, rest: seq<Lexeme>)
    ensures Join([l] + rest) == l.text + Join(rest)
  {
    assert ([l] + rest)[1..] == rest;
  }

  lemma {:induction false} JoinSplit(lexemes: seq<Lexeme>, i: nat)
    requires i <= |lexemes|
    ensures Join(lexemes) == Join(lexemes[..i]) + Join(lexemes[i..])
    decreases i
  {
    if i == 0 {
      assert lexemes[0..] == lexemes && lexemes[..0] == [];
    } else {
      JoinSplit(lexemes[1..], i - 1);
      JoinSplitLater(lexemes[0], lexemes[1..], i - 1);
      assert lexemes == [lexemes[0]] + lexemes[1..];
    }
  }

  lemma JoinSplitLater(l: Lexeme, rest: seq<Lexeme>, i: nat)
    requires i <= |rest| && Join(rest) == Join(rest[..i]) + Join(rest[i..])
    ensures var all := [l] + rest; Join(all) == Join(all[..i + 1]) + Join(all[i + 1..])
  {
    hide Join;
    var all := [l] + rest;
    JoinFirst(l, rest);
    JoinFirst(l, rest[..i]);
    assert all[..i + 1] == [l] + rest[..i] && all[i + 1..] == rest[i..];
    JoinThree(l.text, Join(rest[..i]), Join(rest[i..]));
  }

  lemma JoinThree(a: string, b: string, c: string)
    ensures a + (b + c) == a + b + c
  {
  }

  lemma {:induction false} LexedFrom(lexemes: seq<Lexeme>, i: nat)
    requires Lexed(lexemes) && i <= |lexemes|
    ensures Lexed(lexemes[i..]) && Join(lexemes) == Join(lexemes[..i]) + Join(lexemes[i..])
    decreases i
  {
    hide Lexed, Join, LexNext;
    JoinSplit(lexemes, i);
    if i == 0 {
      assert lexemes[0..] == lexemes;
    } else {
      LexedStep(lexemes);
      LexedFrom(lexemes[1..], i - 1);
      assert lexemes[1..][i - 1..] == lexemes[i..];
    }
  }

  /** Pieces lex the same way when the text is cut off after them. */
  lemma {:induction false} LexedUpTo(lexemes: seq<Lexeme>, n: nat)
    requires Lexed(lexemes) && n <= |lexemes|
    ensures Lexed(lexemes[..n])
    decreases n
  {
    hide LexNext, Lexed, Join;
    if n == 0 {
      NothingLexed();
      assert lexemes[..0] == [];
    } else {
      var rest := lexemes[1..];
      LexedStep(lexemes);
      LexedUpTo(rest, n - 1);
      LexedFrom(rest, n - 1);
      PrependCut(lexemes[0], rest[..n - 1], Join(rest[n - 1..]));
      assert lexemes[..n] == [lexemes[0]] + rest[..n - 1];
    }
  }

  lemma PrependCut(l: Lexeme, kept: seq<Lexeme>, back: string)
    requires l.text != "" && LexNext(l.text + (Join(kept) + back)) == Piece(l.kind, |l.text|) && Lexed(kept)
    ensures Lexed([l] + kept)
  {
    hide LexNext, Lexed, Join, Breaks;
    CutAlike(Join(kept), back);
    LexLocal(l.kind, l.text, Join(kept) + back, Join(kept));
    LexedPrepend(l, kept);
  }

  lemma CutAlike(front: string, back: string)
    ensures Alike(front + back, front)
  {
  }

  /** The text of a stretch of tokens lexes to those tokens, moved to the front. */
  lemma StretchRelexes(sql: string, tokens: seq<Token>, stmt: seq<Token>, a: nat)
    requires Tokens(sql) == Some(tokens) && stmt != [] && IsStretch(tokens, stmt, a)
    ensures forall i :: 0 <= i < |stmt| ==> stmt[0].start <= stmt[i].start <= stmt[i].end
    ensures Tokens(TextOf(sql, stmt)) == Some(Shifted(stmt, stmt[0].start))
    ensures |TextOf(sql, stmt)| == stmt[|stmt| - 1].end - stmt[0].start
  {
    hide Lexed, LexNext, Join, TokensOf;
    var ls := Lexemes(sql).value;
    LexedAll(sql);
    var i := DropPieces(ls, 0, a);
    var start := |Join(ls[..i])|;
    LexedFrom(ls, i);
    assert tokens[a..][..|stmt|] == stmt;
    var j := TakePieces(ls[i..], start, |stmt|);
    LexedUpTo(ls[i..], j);
    LexedFrom(ls[i..], j);
    var piece := ls[i..][..j];
    StartsAt(ls[i..], start);
    TokensShift(piece, start);
    assert stmt[0] == TokensOf(ls[i..], start)[0];
    MiddleText(sql, Join(ls[..i]), Join(piece), Join(ls[i..][j..]));
    LexedMeans(piece);
  }

  lemma StartsAt(lexemes: seq<Lexeme>, start: nat)
    requires lexemes != [] && lexemes[0].kind.Some?
    ensures TokensOf(lexemes, start) != [] && TokensOf(lexemes, start)[0].start == start
  {
  }

  lemma LexedMeans(lexemes: seq<Lexeme>)
    requires Lexed(lexemes)
    ensures Tokens(Join(lexemes)) == Some(TokensOf(lexemes, 0))
  {
  }

  lemma MiddleText(s: string, a: string, b: string, c: string)
    requires s == a + (b + c)
    ensures |a| + |b| <= |s| && s[|a|..|a| + |b|] == b
  {
  }

  /** Splitting the text of any returned statement gives that one statement back, its tokens moved to the front. */
  lemma ResplitStatement(sql: string, tokens: seq<Token>, stmt: seq<Token>)
    requires Tokens(sql) == Some(tokens) && stmt in Statements(tokens)
    ensures stmt != [] && forall i :: 0 <= i < |stmt| ==> stmt[0].start <= stmt[i].start <= stmt[i].end
    ensures var text, moved := TextOf(sql, stmt), Shifted(stmt, stmt[0].start);
            SplitOf(text) == Some([StatementText(text, moved)])
  {
    hide Tokens, Run, Step, IsWhole;
    StatementsAreWhole(tokens, stmt);
    var a := StatementStretch(tokens, stmt);
    assert stmt != [] by { WholeParts(stmt); }
    StretchRelexes(sql, tokens, stmt, a);
    MovedWhole(stmt, Shifted(stmt, stmt[0].start));
    OneText(TextOf(sql, stmt), Shifted(stmt, stmt[0].start));
  }

  lemma OneText(text: string, tokens: seq<Token>)
    requires tokens != [] && tokens[0].start == 0 && tokens[|tokens| - 1].end == |text|
    ensures Texts(text, [tokens]) == [StatementText(text, tokens)]
  {
    assert text[0..|text|] == text;
  }

  lemma WholeParts(stmt: seq<Token>)
    requires IsWhole(stmt)
    ensures stmt != []
  {
  }

  /** A whole statement stays one statement when its tokens are moved. */
  lemma MovedWhole(stmt: seq<Token>, moved: seq<Token>)
    requires IsWhole(stmt) && SameWords(stmt, moved)
    ensures Statements(moved) == [moved]
  {
    hide Run;
    SameRun(stmt, moved);
    var r, q := Run(START, stmt), Run(START, moved);
    assert |Statements(stmt)| == 1 && |Statements(moved)| == 1;
    var only := Statements(moved)[0];
    assert SameWords(Statements(stmt)[0], only);
    var a := StatementStretch(moved, only);
    assert a == 0 && moved[0..|moved|] == moved;
  }

  /* ----- analyzeStatement ----- */

  datatype WriteOperation =
    | InsertOp | UpdateOp | DeleteOp | ReplaceOp | UpsertUpdateOp | DropTableOp | DropTriggerOp | AlterTableOp

  datatype WriteTarget = WriteTarget(operation: WriteOperation, name: string)

  /** The name an identifier or word token stands for. */
  function NameOf(t: Token): string {
    if t.kind == Word then Lower(t.text) else Lower(Unquoted(t.text))
  }

  /** The text between the quotes with doubled quotes read once. */
  function Unquoted(text: string): string {
    if |text| < 2 then ""
    else if text[0] == '[' then text[1..|text| - 1]
    else Undoubled(text[1..|text| - 1], text[0])
  }

  function Undoubled(s: string, quote: char): string {
    if s == "" then ""
    else if |s| > 1 && s[0] == quote && s[1] == quote then [quote] + Undoubled(s[2..], quote)
    else [s[0]] + Undoubled(s[1..], quote)
  }

  predicate IsName(tokens: seq<Token>, i: int) {
    0 <= i < |tokens| && tokens[i].kind in {Word, Identifier}
  }

  /** The last part of a possibly schema-qualified name at `i`; the last part read so far is `name`. */
  function ReadName(tokens: seq<Token>, i: nat, name: Option<string>): Option<string>
    decreases if i < |tokens| then |tokens| - i else 0
  {
    if !IsName(tokens, i) then name
    else
      var part := Some(NameOf(tokens[i]));
      if i + 1 < |tokens| && tokens[i + 1].kind == Punctuation && tokens[i + 1].text == "." then ReadName(tokens, i + 2, part)
      else part
  }

  function SkipIfExists(tokens: seq<Token>, i: nat): nat {
    if WordAt(tokens, i, {"IF"}) && WordAt(tokens, i + 1, {"EXISTS"}) then i + 2 else i
  }

  /** What one token adds: targets, and the insert target remembered for a later DO UPDATE. */
  datatype Found = Found(targets: seq<WriteTarget>, insertTarget: Option<string>)

  /** A target is recorded only under a non-empty name. */
  function Target(operation: WriteOperation, name: Option<string>): seq<WriteTarget> {
    if name.None? || name.value == "" then [] else [WriteTarget(operation, name.value)]
  }

  function Visit(tokens: seq<Token>, i: nat, remembered: Option<string>): Found
    requires i < |tokens|
  {
    if WordAt(tokens, i, {"INSERT"}) then
      if WordAt(tokens, i + 1, {"OR"}) && WordAt(tokens, i + 2, {"REPLACE"}) then Found([], remembered)
      else
        var position := if WordAt(tokens, i + 1, {"OR"}) then i + 3 else i + 1;
        if WordAt(tokens, position, {"INTO"}) then
          var name := ReadName(tokens, position + 1, None);
          Found(Target(InsertOp, name), name)
        else Found([], remembered)
    else if WordAt(tokens, i, {"REPLACE"}) then
      if WordAt(tokens, i + 1, {"INTO"}) then
        var name := ReadName(tokens, i + 2, None);
        Found(Target(ReplaceOp, name), if WordAt(tokens, i - 1, {"OR"}) then name else remembered)
      else Found([], remembered)
    else if WordAt(tokens, i, {"UPDATE"}) then
      if WordAt(tokens, i - 1, {"DO"}) then Found(Target(UpsertUpdateOp, remembered), remembered)
      else if WordAt(tokens, i - 1, {"ON", "BEFORE", "AFTER", "OF"}) then Found([], remembered)
      else
        var position := if WordAt(tokens, i + 1, {"OR"}) then i + 3 else i + 1;
        Found(Target(UpdateOp, ReadName(tokens, position, None)), remembered)
    else if WordAt(tokens, i, {"DELETE"}) then
      if !WordAt(tokens, i - 1, {"ON"}) && WordAt(tokens, i + 1, {"FROM"}) then
        Found(Target(DeleteOp, ReadName(tokens, i + 2, None)), remembered)
      else Found([], remembered)
    else if WordAt(tokens, i, {"DROP"}) then
      if WordAt(tokens, i + 1, {"TABLE"}) then
        Found(Target(DropTableOp, ReadName(tokens, SkipIfExists(tokens, i + 2), None)), remembered)
      else if WordAt(tokens, i + 1, {"TRIGGER"}) then
        Found(Target(DropTriggerOp, ReadName(tokens, SkipIfExists(tokens, i + 2), None)), remembered)
      else Found([], remembered)
    else if WordAt(tokens, i, {"ALTER"}) then
      if WordAt(tokens, i + 1, {"TABLE"}) then Found(Target(AlterTableOp, ReadName(tokens, i + 2, None)), remembered)
      else Found([], remembered)
    else Found([], remembered)
  }

  /** The targets found in the first `n` tokens. */
  function TargetsIn(tokens: seq<Token>, n: nat): Found
    requires n <= |tokens|
  {
    if n == 0 then Found([], None)
    else
      var before := TargetsIn(tokens, n - 1);
      var here := Visit(tokens, n - 1, before.insertTarget);
      Found(before.targets + here.targets, here.insertTarget)
  }

  method FindWriteTargets(tokens: seq<Token>) returns (targets: seq<WriteTarget>)
    ensures targets == TargetsIn(tokens, |tokens|).targets
  {
    hide Visit;
    targets := [];
    var insertTarget: Option<string> := None;
    for i := 0 to |tokens|
      invariant TargetsIn(tokens, i) == Found(targets, insertTarget)
    {
      var here := Visit(tokens, i, insertTarget);
      targets, insertTarget := targets + here.targets, here.insertTarget;
    }
  }

  const WRITE_WORDS := {"INSERT", "UPDATE", "DELETE", "REPLACE", "RETURNING"}

  /** A write keyword; `replace(` is a scalar function. */
  predicate IsWriteWord(tokens: seq<Token>, i: nat) {
    && WordAt(tokens, i, WRITE_WORDS)
    && !(WordAt(tokens, i, {"REPLACE"}) && i + 1 < |tokens| && tokens[i + 1].text == "(")
  }

  /** The verdict the transport's retry decision rests on. */
  predicate IsReadOnly(statements: seq<seq<Token>>) {
    var tokens := Flat(statements);
    && |statements| == 1
    && !(exists i :: 0 <= i < |tokens| && IsWriteWord(tokens, i))
    && WordAt(tokens, 0, {"SELECT", "VALUES", "WITH", "EXPLAIN"})
  }

  predicate WritesRows(target: WriteTarget) {
    target.operation in {InsertOp, UpdateOp, DeleteOp, ReplaceOp, UpsertUpdateOp}
  }

  lemma VisitReads(tokens: seq<Token>, i: nat, remembered: Option<string>)
    requires i < |tokens| && !IsWriteWord(tokens, i)
    ensures forall target :: target in Visit(tokens, i, remembered).targets ==> !WritesRows(target)
  {
    hide ReadName, Upper;
    if WordAt(tokens, i, {"REPLACE"}) && WordAt(tokens, i + 1, {"INTO"}) {
      NotParenthesis(tokens[i + 1]);
    }
  }

  lemma NotParenthesis(t: Token)
    requires IsWord(t, {"INTO"})
    ensures t.text != "("
  {
    assert Upper("(") == UpperChar('(') + Upper("");
  }

  /** A statement judged read-only names no insert, update, delete, replace or upsert target. */
  lemma {:induction false} ReadOnlyWritesNoRows(tokens: seq<Token>, n: nat)
    requires n <= |tokens| && !(exists i :: 0 <= i < |tokens| && IsWriteWord(tokens, i))
    ensures forall target :: target in TargetsIn(tokens, n).targets ==> !WritesRows(target)
  {
    hide Visit, IsWriteWord, WritesRows;
    if n > 0 {
      ReadOnlyWritesNoRows(tokens, n - 1);
      VisitReads(tokens, n - 1, TargetsIn(tokens, n - 1).insertTarget);
    }
  }
}
