/** packages/db/src/query.ts: which statements sql() accepts, and which value each placeholder gets. */
module SqlBinding {
  import opened Wrappers
  import opened SqlLexer
  import opened SqlQuery

  /* ----- What is accepted ----- */

  predicate IsParameter(t: Token) {
    t.kind == Parameter
  }

  /** The token is the parameter `:name`. */
  predicate Names(t: Token, name: string) {
    IsParameter(t) && t.text == ":" + name
  }

  ghost predicate EveryParameterGiven(tokens: seq<Token>, params: SqlParams) {
    forall i :: 0 <= i < |tokens| && IsParameter(tokens[i]) ==> exists name :: name in params && Names(tokens[i], name)
  }

  ghost predicate EveryNameUsed(tokens: seq<Token>, params: SqlParams) {
    forall name :: name in params ==> exists i :: 0 <= i < |tokens| && Names(tokens[i], name)
  }

  lemma NamedMeans(t: Token, params: SqlParams)
    requires IsParameter(t)
    ensures IsNamed(t.text, params) <==> exists name :: name in params && Names(t, name)
  {
    if IsNamed(t.text, params) {
      assert t.text == ":" + t.text[1..];
      assert Names(t, t.text[1..]);
    }
    if name :| name in params && Names(t, name) {
      assert t.text[1..] == name;
    }
  }

  lemma {:induction false} NoProblemMeans(tokens: seq<Token>, params: SqlParams)
    ensures FirstProblem(tokens, params) == None <==> EveryParameterGiven(tokens, params)
  {
    hide IsNamed, Names;
    if tokens != [] {
      NoProblemMeans(tokens[1..], params);
      if IsParameter(tokens[0]) {
        NamedMeans(tokens[0], params);
      }
      assert forall i :: 0 < i < |tokens| ==> tokens[i] == tokens[1..][i - 1];
      assert forall i :: 0 <= i < |tokens[1..]| ==> tokens[1..][i] == tokens[i + 1];
    }
  }

  lemma {:induction false} UsedMeans(tokens: seq<Token>, params: SqlParams, name: string)
    requires EveryParameterGiven(tokens, params)
    ensures name in UsedNames(tokens) <==> exists i :: 0 <= i < |tokens| && Names(tokens[i], name)
  {
    if tokens != [] {
      assert forall i :: 0 < i < |tokens| ==> tokens[i] == tokens[1..][i - 1];
      assert forall i :: 0 <= i < |tokens[1..]| ==> tokens[1..][i] == tokens[i + 1];
      UsedMeans(tokens[1..], params, name);
      if IsParameter(tokens[0]) {
        var given :| given in params && Names(tokens[0], given);
        assert tokens[0].text[1..] == given;
      }
    }
  }

  predicate IsLead(c: char) {
    'A' <= c <= 'Z' || 'a' <= c <= 'z' || c == '_'
  }

  /** A letter or an underscore, and then letters, underscores and digits. */
  predicate IsPlainName(name: string) {
    name != "" && IsLead(name[0]) && forall c :: c in name[1..] ==> IsLead(c) || '0' <= c <= '9'
  }

  lemma PlainNamesAre(name: string)
    ensures IsParameterName(name) <==> IsPlainName(name)
  {
    if IsPlainName(name) {
      forall i | 0 < i < |name|
        ensures IsLead(name[i]) || '0' <= name[i] <= '9'
      {
        assert name[1..][i - 1] == name[i];
      }
    }
  }

  /** Accepted exactly when names are well formed, every parameter is a given name and every given name is used. */
  lemma AcceptedExactly(text: string, params: SqlParams)
    ensures Compile(text, params).Statement? <==>
            && (forall name :: name in params ==> IsPlainName(name)) && Tokens(text).Some?
            && EveryParameterGiven(Tokens(text).value, params) && EveryNameUsed(Tokens(text).value, params)
  {
    hide IsParameterName, IsPlainName, Tokens, FirstProblem, UsedNames, Spliced, BoundBy, EveryParameterGiven, Names;
    forall name
      ensures IsParameterName(name) <==> IsPlainName(name)
    {
      PlainNamesAre(name);
    }
    if Tokens(text).Some? {
      var tokens := Tokens(text).value;
      NoProblemMeans(tokens, params);
      if EveryParameterGiven(tokens, params) {
        forall name
          ensures name in UsedNames(tokens) <==> exists i :: 0 <= i < |tokens| && Names(tokens[i], name)
        {
          UsedMeans(tokens, params, name);
        }
      }
    }
  }

  /* ----- Slots ----- */

  /** How many placeholders a value stands for. */
  function SlotsOf(value: SqlValue): nat {
    match value
    case Null => 0
    case Text(_) => 1
    case List(items) => |items|
  }

  /** How many placeholders the first `k` tokens stand for. */
  ghost function Slots(tokens: seq<Token>, params: SqlParams, k: nat): nat
    requires k <= |tokens| && EveryParameterGiven(tokens, params)
  {
    if k == 0 then 0
    else Slots(tokens, params, k - 1) + if IsParameter(tokens[k - 1]) then SlotsOf(GivenFor(tokens, params, k - 1)) else 0
  }

  /** The value given under the name of the parameter at `k`. */
  ghost function GivenFor(tokens: seq<Token>, params: SqlParams, k: nat): (value: SqlValue)
    requires k < |tokens| && IsParameter(tokens[k]) && EveryParameterGiven(tokens, params)
    ensures exists name :: name in params && Names(tokens[k], name) && params[name] == value
  {
    var name :| name in params && Names(tokens[k], name);
    params[name]
  }

  /** From slot `n` on stand the values that the value binds. */
  ghost predicate Binds(bound: seq<string>, n: nat, value: SqlValue) {
    match value
    case Null => true
    case Text(text) => n < |bound| && bound[n] == text
    case List(items) => n + |items| <= |bound| && bound[n..n + |items|] == items
  }

  lemma OneName(t: Token, params: SqlParams, name: string)
    requires IsParameter(t) && name in params && Names(t, name)
    ensures IsNamed(t.text, params) && ValueOf(t.text, params) == params[name]
  {
    assert t.text[1..] == name;
  }

  lemma GivenIsValueOf(tokens: seq<Token>, params: SqlParams, k: nat)
    requires k < |tokens| && IsParameter(tokens[k]) && EveryParameterGiven(tokens, params)
    ensures IsNamed(tokens[k].text, params) && GivenFor(tokens, params, k) == ValueOf(tokens[k].text, params)
  {
    var name :| name in params && Names(tokens[k], name) && params[name] == GivenFor(tokens, params, k);
    OneName(tokens[k], params, name);
  }

  lemma GivenFront(tokens: seq<Token>, params: SqlParams, k: nat)
    requires EveryParameterGiven(tokens, params) && k <= |tokens|
    ensures EveryParameterGiven(tokens[k..], params) && EveryParameterGiven(tokens[..k], params)
  {
    hide Names;
    assert forall i :: 0 <= i < |tokens[k..]| ==> tokens[k..][i] == tokens[k + i];
  }

  /** What the tokens from `k` on bind follows what those before it bind. */
  lemma {:induction false} BoundFrom(tokens: seq<Token>, params: SqlParams, k: nat, all: seq<string>)
    requires k <= |tokens| && EveryParameterGiven(tokens, params) && FirstProblem(tokens[k..], params) == None
    requires Slots(tokens, params, k) <= |all| && all[Slots(tokens, params, k)..] == BoundBy(tokens[k..], params)
    ensures |all| == Slots(tokens, params, |tokens|)
    ensures forall j :: k <= j < |tokens| && IsParameter(tokens[j]) ==>
                          Binds(all, Slots(tokens, params, j), GivenFor(tokens, params, j))
    decreases |tokens| - k
  {
    hide EveryParameterGiven, GivenFor, Names;
    if k < |tokens| {
      assert tokens[k..][1..] == tokens[k + 1..];
      var n := Slots(tokens, params, k);
      if IsParameter(tokens[k]) {
        GivenIsValueOf(tokens, params, k);
        var bound, rest := Bound(ValueOf(tokens[k].text, params)), BoundBy(tokens[k + 1..], params);
        assert all[n..] == bound + rest;
        SplitAt(all, n, bound, rest);
      }
      BoundFrom(tokens, params, k + 1, all);
    }
  }

  lemma SplitAt(all: seq<string>, n: nat, front: seq<string>, rest: seq<string>)
    requires n <= |all| && all[n..] == front + rest
    ensures n + |front| <= |all| && all[n..n + |front|] == front && all[n + |front|..] == rest
  {
    assert all[n..][..|front|] == front && all[n..][|front|..] == rest;
    assert all[n..n + |front|] == all[n..][..|front|];
    assert all[n + |front|..] == all[n..][|front|..];
  }

  /**
   * Each parameter of an accepted text binds its value at the slots after those of the parameters before it: a
   * string one, a list one for each item, NULL and the empty list none. These slots are all that is bound.
   */
  lemma ValuesAreBound(text: string, params: SqlParams)
    requires Compile(text, params).Statement?
    ensures Tokens(text).Some? && EveryParameterGiven(Tokens(text).value, params)
    ensures var tokens, bound := Tokens(text).value, Compile(text, params).params;
            && |bound| == Slots(tokens, params, |tokens|)
            && forall k :: 0 <= k < |tokens| && IsParameter(tokens[k]) ==>
                             Binds(bound, Slots(tokens, params, k), GivenFor(tokens, params, k))
  {
    hide Tokens, FirstProblem, Spliced, EveryParameterGiven, GivenFor, Binds, BoundBy, IsParameterName;
    AcceptedExactly(text, params);
    var tokens, bound := Tokens(text).value, Compile(text, params).params;
    NoProblemMeans(tokens, params);
    assert tokens[0..] == tokens && bound[0..] == bound;
    BoundFrom(tokens, params, 0, bound);
  }
}
