/** packages/db/src/query.ts: named parameters compiled to positional placeholders. */
module SqlQuery {
  import opened Wrappers
  import opened SqlLexer

  datatype SqlValue = Null | Text(text: string) | List(items: seq<string>)

  type SqlParams = map<string, SqlValue>

  datatype Problem = BadName | Unlexable | NotNamed | Missing | Unused

  datatype Statement = Statement(sql: string, params: seq<string>) | Invalid(problem: Problem)

  /** ^[A-Za-z_][A-Za-z0-9_]*$ */
  predicate IsParameterName(name: string) {
    && name != ""
    && ('A' <= name[0] <= 'Z' || 'a' <= name[0] <= 'z' || name[0] == '_')
    && forall i :: 0 <= i < |name| ==>
         'A' <= name[i] <= 'Z' || 'a' <= name[i] <= 'z' || name[i] == '_' || IsDigit(name[i])
  }

  const EMPTY_LIST := "SELECT NULL WHERE 0"

  /** `n` question marks joined by ", ". */
  function Marks(n: nat): string
    requires n > 0
  {
    if n == 1 then "?" else "?, " + Marks(n - 1)
  }

  function Replacement(value: SqlValue): string {
    match value
    case Null => "NULL"
    case Text(_) => "?"
    case List(items) => if items == [] then EMPTY_LIST else Marks(|items|)
  }

  function Bound(value: SqlValue): seq<string> {
    match value
    case Null => []
    case Text(text) => [text]
    case List(items) => items
  }

  predicate IsNamed(text: string, params: SqlParams) {
    text != "" && text[0] == ':' && text[1..] in params
  }

  /** The value a parameter token stands for. */
  function ValueOf(text: string, params: SqlParams): SqlValue
    requires IsNamed(text, params)
  {
    params[text[1..]]
  }

  /** The first token sql() refuses, if any. */
  function FirstProblem(tokens: seq<Token>, params: SqlParams): Option<Problem> {
    if tokens == [] then None
    else if tokens[0].kind == Parameter && !IsNamed(tokens[0].text, params) then
      Some(if tokens[0].text != "" && tokens[0].text[0] == ':' then Missing else NotNamed)
    else FirstProblem(tokens[1..], params)
  }

  function UsedNames(tokens: seq<Token>): set<string> {
    if tokens == [] then {}
    else (if tokens[0].kind == Parameter && tokens[0].text != "" then {tokens[0].text[1..]} else {}) + UsedNames(tokens[1..])
  }

  /** Tokens in order, from `cursor` on, within a text of `end` characters. */
  predicate Ordered(tokens: seq<Token>, cursor: nat, end: nat) {
    if tokens == [] then cursor <= end
    else cursor <= tokens[0].start <= tokens[0].end && Ordered(tokens[1..], tokens[0].end, end)
  }

  lemma {:induction false} OrderedFacts(tokens: seq<Token>, cursor: nat, end: nat)
    requires Ordered(tokens, cursor, end)
    ensures cursor <= end
    ensures tokens != [] ==> tokens[0].end <= end && Ordered(tokens[1..], cursor, end)
  {
    if tokens != [] {
      OrderedFacts(tokens[1..], tokens[0].end, end);
    }
  }

  /** The text from `cursor` on with each parameter token replaced. */
  function Spliced(text: string, tokens: seq<Token>, cursor: nat, params: SqlParams): string
    requires Ordered(tokens, cursor, |text|) && FirstProblem(tokens, params) == None
    decreases |tokens|
  {
    OrderedFacts(tokens, cursor, |text|);
    if tokens == [] then text[cursor..]
    else
      var first := tokens[0];
      if first.kind != Parameter then Spliced(text, tokens[1..], cursor, params)
      else text[cursor..first.start] + Replacement(ValueOf(first.text, params)) + Spliced(text, tokens[1..], first.end, params)
  }

  function BoundBy(tokens: seq<Token>, params: SqlParams): seq<string>
    requires FirstProblem(tokens, params) == None
  {
    if tokens == [] then []
    else (if tokens[0].kind == Parameter then Bound(ValueOf(tokens[0].text, params)) else []) + BoundBy(tokens[1..], params)
  }

  lemma {:induction false} TokensOrdered(lexemes: seq<Lexeme>, start: nat)
    ensures Ordered(TokensOf(lexemes, start), start, start + |Join(lexemes)|)
    decreases |lexemes|
  {
    if lexemes != [] {
      var first := lexemes[0];
      TokensOrdered(lexemes[1..], start + |first.text|);
      var rest := TokensOf(lexemes[1..], start + |first.text|);
      if first.kind.None? {
        OrderedSooner(rest, start + |first.text|, start, start + |Join(lexemes)|);
      } else {
        assert TokensOf(lexemes, start)[1..] == rest;
      }
    }
  }

  lemma OrderedSooner(tokens: seq<Token>, cursor: nat, sooner: nat, end: nat)
    requires Ordered(tokens, cursor, end) && sooner <= cursor
    ensures Ordered(tokens, sooner, end)
  {
  }

  /** Every given name is well formed, the text lexes, every parameter is supplied and every name used. */
  function Compile(text: string, params: SqlParams): Statement {
    if exists name :: name in params && !IsParameterName(name) then Invalid(BadName)
    else if Tokens(text).None? then Invalid(Unlexable)
    else
      var tokens := Tokens(text).value;
      TokensOrdered(Lexemes(text).value, 0);
      if FirstProblem(tokens, params).Some? then Invalid(FirstProblem(tokens, params).value)
      else if exists name :: name in params && name !in UsedNames(tokens) then Invalid(Unused)
      else Statement(Spliced(text, tokens, 0, params), BoundBy(tokens, params))
  }

  /** One step of every recursion over the tokens. */
  lemma AtToken(tokens: seq<Token>, k: nat, cursor: nat, text: string, params: SqlParams)
    requires k < |tokens| && Ordered(tokens[k..], cursor, |text|)
    ensures cursor <= tokens[k].start <= tokens[k].end <= |text|
    ensures Ordered(tokens[k + 1..], cursor, |text|) && Ordered(tokens[k + 1..], tokens[k].end, |text|)
    ensures UsedNames(tokens[k..])
         == (if tokens[k].kind == Parameter && tokens[k].text != "" then {tokens[k].text[1..]} else {}) + UsedNames(tokens[k + 1..])
    ensures var t, named := tokens[k], IsNamed(tokens[k].text, params);
            FirstProblem(tokens[k..], params) ==
            if t.kind == Parameter && !named then Some(if t.text != "" && t.text[0] == ':' then Missing else NotNamed)
            else FirstProblem(tokens[k + 1..], params)
    ensures FirstProblem(tokens[k..], params).None? ==>
              var t, rest := tokens[k], tokens[k + 1..];
              && BoundBy(tokens[k..], params) == (if t.kind == Parameter then Bound(ValueOf(t.text, params)) else []) + BoundBy(rest, params)
              && Spliced(text, tokens[k..], cursor, params) ==
                 if t.kind != Parameter then Spliced(text, rest, cursor, params)
                 else text[cursor..t.start] + Replacement(ValueOf(t.text, params)) + Spliced(text, rest, t.end, params)
  {
    assert tokens[k..][1..] == tokens[k + 1..];
    OrderedFacts(tokens[k..], cursor, |text|);
  }

  lemma AtEnd(tokens: seq<Token>, cursor: nat, text: string, params: SqlParams)
    requires Ordered(tokens[|tokens|..], cursor, |text|)
    ensures cursor <= |text|
    ensures UsedNames(tokens[|tokens|..]) == {} && FirstProblem(tokens[|tokens|..], params) == None
    ensures BoundBy(tokens[|tokens|..], params) == [] && Spliced(text, tokens[|tokens|..], cursor, params) == text[cursor..]
  {
  }

  method Sql(text: string, params: SqlParams) returns (r: Statement)
    ensures r == Compile(text, params)
  {
    hide Tokens, Lexemes, IsParameterName, Replacement, Bound, Ordered, UsedNames, FirstProblem, Spliced, BoundBy;
    if exists name :: name in params && !IsParameterName(name) {
      return Invalid(BadName);
    }
    var lexed := TokenizeSql(text);
    if lexed.None? {
      return Invalid(Unlexable);
    }
    r := SqlTokens(text, lexed.value, params);
  }

  method SqlTokens(text: string, tokens: seq<Token>, params: SqlParams) returns (r: Statement)
    requires Tokens(text) == Some(tokens) && !exists name :: name in params && !IsParameterName(name)
    ensures r == Compile(text, params)
  {
    hide Tokens, Lexemes, IsParameterName, Replacement, Bound, Ordered, UsedNames, FirstProblem, Spliced, BoundBy;
    LexedOrdered(text);
    var used: set<string> := {};
    var bound: seq<string> := [];
    var compiled: string := "";
    var cursor: nat := 0;
    assert tokens[0..] == tokens;
    for k := 0 to |tokens|
      invariant FirstProblem(tokens, params) == FirstProblem(tokens[k..], params)
      invariant Ordered(tokens[k..], cursor, |text|)
      invariant UsedNames(tokens) == used + UsedNames(tokens[k..])
      invariant FirstProblem(tokens, params).None? ==>
                  && Spliced(text, tokens, 0, params) == compiled + Spliced(text, tokens[k..], cursor, params)
                  && BoundBy(tokens, params) == bound + BoundBy(tokens[k..], params)
    {
      var token := tokens[k];
      AtToken(tokens, k, cursor, text, params);
      if token.kind == Parameter {
        if token.text == "" || token.text[0] != ':' {
          return Invalid(NotNamed);
        }
        var name := token.text[1..];
        if name !in params {
          return Invalid(Missing);
        }
        used := used + {name};
        bound := bound + Bound(params[name]);
        compiled := compiled + (text[cursor..token.start] + Replacement(params[name]));
        cursor := token.end;
      }
    }
    AtEnd(tokens, cursor, text, params);
    compiled := compiled + text[cursor..];
    assert bound + [] == bound && used + {} == used;
    if exists name :: name in params && name !in used {
      return Invalid(Unused);
    }
    return Statement(compiled, bound);
  }

  lemma LexedOrdered(text: string)
    requires Tokens(text).Some?
    ensures Ordered(Tokens(text).value, 0, |text|)
  {
    hide LexNext, TokensOf, Ordered;
    TokensOrdered(Lexemes(text).value, 0);
  }
}
