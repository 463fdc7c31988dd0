/** packages/crypto/src/canonical-json.ts: equal texts are texts of equal values, and the other way round. */
module CanonicalUnique {
  import opened Utf16
  import opened KeyOrder
  import opened CanonicalJson

  /* ----- Texts are read back from the left ----- */

  /** What can follow a value: nothing, or the unit after an item or a member. */
  predicate Ends(rest: Text) {
    rest == [] || IsEnd(rest[0])
  }

  predicate IsEnd(u: CodeUnit) {
    u == COMMA || u == CLOSE_BRACKET || u == CLOSE_BRACE
  }

  lemma EscapePrefix(a: CodeUnit, b: CodeUnit, r: Text, q: Text)
    requires Escape(a) + r == Escape(b) + q
    ensures a == b && r == q
  {
    var whole := Escape(a) + r;
    assert whole[0] == Escape(a)[0] == Escape(b)[0];
    if whole[0] == BACKSLASH {
      assert whole[1] == Escape(a)[1] == Escape(b)[1];
      if whole[1] == 0x75 {
        assert whole[4] == Escape(a)[4] == Escape(b)[4];
        assert whole[5] == Escape(a)[5] == Escape(b)[5];
      }
    }
    assert a == b;
    assert r == whole[|Escape(a)|..] == q;
  }

  lemma EscapeHead(a: CodeUnit)
    ensures Escape(a) != [] && Escape(a)[0] != QUOTE
  {
  }

  lemma DropFirst(u: CodeUnit, r: Text, q: Text)
    requires [u] + r == [u] + q
    ensures r == q
  {
    assert r == ([u] + r)[1..];
    assert q == ([u] + q)[1..];
  }

  lemma EscapeAllHead(a: Text, r: Text)
    ensures var whole := EscapeAll(a) + ([QUOTE] + r);
            && (whole[0] == QUOTE <==> a == [])
            && whole == if a == [] then [QUOTE] + r else Escape(a[0]) + (EscapeAll(a[1..]) + ([QUOTE] + r))
  {
    if a != [] {
      EscapeHead(a[0]);
      assert Escape(a[0]) + EscapeAll(a[1..]) + ([QUOTE] + r) == Escape(a[0]) + (EscapeAll(a[1..]) + ([QUOTE] + r));
    }
  }

  lemma {:induction false} EscapeAllPrefix(a: Text, b: Text, r: Text, q: Text)
    requires EscapeAll(a) + ([QUOTE] + r) == EscapeAll(b) + ([QUOTE] + q)
    ensures a == b && r == q
  {
    hide Escape;
    EscapeAllHead(a, r);
    EscapeAllHead(b, q);
    if a == [] {
      DropFirst(QUOTE, r, q);
    } else {
      EscapePrefix(a[0], b[0], EscapeAll(a[1..]) + ([QUOTE] + r), EscapeAll(b[1..]) + ([QUOTE] + q));
      EscapeAllPrefix(a[1..], b[1..], r, q);
      assert a == [a[0]] + a[1..] && b == [b[0]] + b[1..];
    }
  }

  lemma QuotedPrefix(a: Text, b: Text, r: Text, q: Text)
    requires Quoted(a) + r == Quoted(b) + q
    ensures a == b && r == q
  {
    hide EscapeAll;
    assert Quoted(a) + r == [QUOTE] + (EscapeAll(a) + ([QUOTE] + r));
    assert Quoted(b) + q == [QUOTE] + (EscapeAll(b) + ([QUOTE] + q));
    DropFirst(QUOTE, EscapeAll(a) + ([QUOTE] + r), EscapeAll(b) + ([QUOTE] + q));
    EscapeAllPrefix(a, b, r, q);
  }

  predicate NoEnd(text: Text) {
    forall i :: 0 <= i < |text| ==> !IsEnd(text[i])
  }

  lemma LeadingUnits(t: Text, rest: Text)
    ensures forall i :: 0 <= i < |t| ==> (t + rest)[i] == t[i]
    ensures rest != [] ==> (t + rest)[|t|] == rest[0]
  {
  }

  lemma WordLength(s: Text, t: Text, r: Text, q: Text)
    requires s + r == t + q && NoEnd(t) && Ends(r)
    ensures |t| <= |s|
  {
    LeadingUnits(t, q);
    LeadingUnits(s, r);
  }

  lemma WordPrefix(s: Text, t: Text, r: Text, q: Text)
    requires s + r == t + q && NoEnd(s) && NoEnd(t) && Ends(r) && Ends(q)
    ensures s == t && r == q
  {
    WordLength(s, t, r, q);
    WordLength(t, s, q, r);
    assert s == (s + r)[..|s|] == t;
    assert r == (s + r)[|s|..] == q;
  }

  /** The kinds of values whose texts are words: no quotes, brackets or braces. */
  predicate IsWord(v: Value) {
    v.Null? || v.Bool? || v.Num?
  }

  lemma WordText(v: Value, d: nat)
    requires IsWord(v) && Encode(v, d).Some?
    ensures NoEnd(Encode(v, d).value) && Encode(v, d).value != []
    ensures var u := Encode(v, d).value[0];
            u != QUOTE && u != OPEN_BRACKET && u != OPEN_BRACE
  {
  }

  lemma WordsDiffer(v: Value, w: Value, d: nat, e: nat)
    requires IsWord(v) && IsWord(w) && Encode(v, d).Some? && Encode(v, d) == Encode(w, e)
    ensures Same(v, w)
  {
    var first := Encode(v, d).value[0];
    assert v.Num? <==> (first == MINUS || 0x30 <= first <= 0x39);
  }

  /** The first unit tells what kind of value follows. */
  lemma FirstUnit(v: Value, d: nat)
    requires Encode(v, d).Some?
    ensures var s := Encode(v, d).value;
            && s != [] && !IsEnd(s[0])
            && (v.Str? <==> s[0] == QUOTE) && (v.Arr? <==> s[0] == OPEN_BRACKET) && (v.Obj? <==> s[0] == OPEN_BRACE)
            && !v.Undefined? && !v.Unsupported?
  {
    hide Join, EscapeAll, EncodeItems, EncodeEntries, Entries;
    if IsWord(v) {
      WordText(v, d);
    }
  }

  /** What follows the first of some texts in a list that ends with `close`. */
  function After(texts: seq<Text>, close: CodeUnit, r: Text): Text
    requires texts != []
  {
    if |texts| == 1 then [close] + r else [COMMA] + (Join(texts[1..]) + ([close] + r))
  }

  lemma Regroup(first: Text, unit: CodeUnit, rest: Text, end: Text)
    ensures first + [unit] + rest + end == first + ([unit] + (rest + end))
  {
  }

  lemma JoinHead(texts: seq<Text>, close: CodeUnit, r: Text)
    requires texts != []
    ensures Join(texts) + ([close] + r) == texts[0] + After(texts, close, r)
  {
    if |texts| > 1 {
      Regroup(texts[0], COMMA, Join(texts[1..]), [close] + r);
    }
  }

  /** Two lists whose first texts agree go on alike. */
  lemma AfterPrefix(ss: seq<Text>, ts: seq<Text>, close: CodeUnit, r: Text, q: Text)
    requires ss != [] && ts != [] && (close == CLOSE_BRACKET || close == CLOSE_BRACE)
    requires After(ss, close, r) == After(ts, close, q)
    ensures |ss| == 1 <==> |ts| == 1
    ensures |ss| == 1 ==> r == q
    ensures |ss| > 1 ==> Join(ss[1..]) + ([close] + r) == Join(ts[1..]) + ([close] + q)
  {
    hide Join;
    assert After(ss, close, r)[0] == if |ss| == 1 then close else COMMA;
    assert After(ts, close, q)[0] == if |ts| == 1 then close else COMMA;
    if |ss| == 1 {
      DropFirst(close, r, q);
    } else {
      DropFirst(COMMA, Join(ss[1..]) + ([close] + r), Join(ts[1..]) + ([close] + q));
    }
  }

  lemma BracketText(open: CodeUnit, inner: Text, close: CodeUnit, r: Text)
    ensures [open] + inner + [close] + r == [open] + (inner + ([close] + r))
  {
  }

  /** An empty list ends at once; another one does not. */
  lemma ListStart(texts: seq<Text>, close: CodeUnit, r: Text)
    requires close == CLOSE_BRACKET || close == CLOSE_BRACE
    requires texts != [] ==> texts[0] != [] && !IsEnd(texts[0][0])
    ensures (Join(texts) + ([close] + r))[0] == close <==> texts == []
  {
    if texts != [] {
      JoinHead(texts, close, r);
      assert (texts[0] + After(texts, close, r))[0] == texts[0][0];
    }
  }

  lemma ItemTexts(items: seq<Value>, d: nat)
    requires EncodeItems(items, d).Some?
    ensures |EncodeItems(items, d).value| == |items|
    ensures items != [] ==> EncodeItems(items[1..], d).Some? && Encode(items[0], d).Some?
                            && EncodeItems(items, d).value[0] == Encode(items[0], d).value
                            && EncodeItems(items, d).value[1..] == EncodeItems(items[1..], d).value
  {
  }

  lemma EntryTexts(v: Value, entries: seq<Member>, d: nat)
    requires v.Obj? && forall m :: m in entries ==> m in v.members
    requires EncodeEntries(v, entries, d).Some?
    ensures |EncodeEntries(v, entries, d).value| == |entries|
    ensures entries != [] ==>
              var first := Encode(entries[0].value, d);
              && entries[0] in v.members && EncodeEntries(v, entries[1..], d).Some? && first.Some? && WellFormed(entries[0].key)
              && EncodeEntries(v, entries, d).value[0] == Quoted(entries[0].key) + [COLON] + first.value
              && EncodeEntries(v, entries, d).value[1..] == EncodeEntries(v, entries[1..], d).value
  {
  }

  /**
   * Accepted texts are uniquely decodable: two of them that start one text, each followed by what can
   * follow a value, are equal, and so are their values up to what the text leaves out.
   */
  lemma {:induction false} EncodePrefix(v: Value, w: Value, d: nat, e: nat, r: Text, q: Text)
    requires Encode(v, d).Some? && Encode(w, e).Some? && Ends(r) && Ends(q)
    requires Encode(v, d).value + r == Encode(w, e).value + q
    ensures Same(v, w) && Encode(v, d) == Encode(w, e) && r == q
    decreases v, 1
  {
    hide Join, EscapeAll, EncodeItems, EncodeEntries, Entries, Same, WellFormed, Quoted;
    var s, t := Encode(v, d).value, Encode(w, e).value;
    FirstUnit(v, d);
    FirstUnit(w, e);
    assert (s + r)[0] == s[0] && (t + q)[0] == t[0];
    if v.Str? {
      QuotedPrefix(v.text, w.text, r, q);
      SameText(v, w);
    } else if v.Arr? {
      ArraysPrefix(v, w, d, e, r, q);
    } else if v.Obj? {
      ObjectsPrefix(v, w, d, e, r, q);
    } else {
      WordText(v, d);
      WordText(w, e);
      WordPrefix(s, t, r, q);
      WordsDiffer(v, w, d, e);
    }
  }

  lemma SameText(v: Value, w: Value)
    requires v.Str? && v == w
    ensures Same(v, w)
  {
  }

  lemma ArraysPrefix(v: Value, w: Value, d: nat, e: nat, r: Text, q: Text)
    requires v.Arr? && w.Arr? && Encode(v, d).Some? && Encode(w, e).Some?
    requires Encode(v, d).value + r == Encode(w, e).value + q
    ensures Same(v, w) && Encode(v, d) == Encode(w, e) && r == q
    decreases v, 0
  {
    hide Join, EncodeItems;
    var ss, ts := EncodeItems(v.items, d + 1).value, EncodeItems(w.items, e + 1).value;
    BracketText(OPEN_BRACKET, Join(ss), CLOSE_BRACKET, r);
    BracketText(OPEN_BRACKET, Join(ts), CLOSE_BRACKET, q);
    DropFirst(OPEN_BRACKET, Join(ss) + ([CLOSE_BRACKET] + r), Join(ts) + ([CLOSE_BRACKET] + q));
    ItemsPrefix(v.items, w.items, d + 1, e + 1, r, q);
  }

  lemma ObjectsPrefix(v: Value, w: Value, d: nat, e: nat, r: Text, q: Text)
    requires v.Obj? && w.Obj? && Encode(v, d).Some? && Encode(w, e).Some?
    requires Encode(v, d).value + r == Encode(w, e).value + q
    ensures Same(v, w) && Encode(v, d) == Encode(w, e) && r == q
    decreases v, 0, 1
  {
    hide Join, EncodeEntries, Entries, Same;
    EntriesHold(v.members);
    EntriesHold(w.members);
    var es, fs := Entries(v.members), Entries(w.members);
    var ss, ts := EncodeEntries(v, es, d + 1).value, EncodeEntries(w, fs, e + 1).value;
    BracketText(OPEN_BRACE, Join(ss), CLOSE_BRACE, r);
    BracketText(OPEN_BRACE, Join(ts), CLOSE_BRACE, q);
    DropFirst(OPEN_BRACE, Join(ss) + ([CLOSE_BRACE] + r), Join(ts) + ([CLOSE_BRACE] + q));
    EntriesPrefix(v, w, es, fs, d + 1, e + 1, r, q);
    SameFromEntries(v, w);
  }

  lemma {:induction false} ItemsPrefix(xs: seq<Value>, ys: seq<Value>, d: nat, e: nat, r: Text, q: Text)
    requires EncodeItems(xs, d).Some? && EncodeItems(ys, e).Some?
    requires Join(EncodeItems(xs, d).value) + ([CLOSE_BRACKET] + r) ==
             Join(EncodeItems(ys, e).value) + ([CLOSE_BRACKET] + q)
    ensures |xs| == |ys| && forall i :: 0 <= i < |xs| ==> Same(xs[i], ys[i])
    ensures EncodeItems(xs, d) == EncodeItems(ys, e) && r == q
    decreases xs
  {
    hide Join, Encode, EncodeItems, Same;
    ItemTexts(xs, d);
    ItemTexts(ys, e);
    var ss, ts := EncodeItems(xs, d).value, EncodeItems(ys, e).value;
    if xs != [] {
      FirstUnit(xs[0], d);
    }
    if ys != [] {
      FirstUnit(ys[0], e);
    }
    ListStart(ss, CLOSE_BRACKET, r);
    ListStart(ts, CLOSE_BRACKET, q);
    if xs == [] {
      assert ss == [] && ts == [];
      JoinNothing(CLOSE_BRACKET, r);
      JoinNothing(CLOSE_BRACKET, q);
      DropFirst(CLOSE_BRACKET, r, q);
    } else {
      JoinHead(ss, CLOSE_BRACKET, r);
      JoinHead(ts, CLOSE_BRACKET, q);
      EncodePrefix(xs[0], ys[0], d, e, After(ss, CLOSE_BRACKET, r), After(ts, CLOSE_BRACKET, q));
      AfterPrefix(ss, ts, CLOSE_BRACKET, r, q);
      assert ss == [ss[0]] + ss[1..] && ts == [ts[0]] + ts[1..];
      if |xs| > 1 {
        ItemsPrefix(xs[1..], ys[1..], d, e, r, q);
        forall i | 0 <= i < |xs|
          ensures Same(xs[i], ys[i])
        {
          if i > 0 {
            assert xs[i] == xs[1..][i - 1] && ys[i] == ys[1..][i - 1];
          }
        }
      }
    }
  }

  lemma JoinNothing(close: CodeUnit, r: Text)
    ensures Join([]) + ([close] + r) == [close] + r
  {
  }

  predicate SameEntries(es: seq<Member>, fs: seq<Member>) {
    |es| == |fs| && forall i :: 0 <= i < |es| ==> es[i].key == fs[i].key && Same(es[i].value, fs[i].value)
  }

  /** A member's text before its value, and what follows it. */
  lemma EntryHead(key: Text, value: Text, rest: Text)
    ensures Quoted(key) + [COLON] + value + rest == Quoted(key) + ([COLON] + (value + rest))
    ensures (Quoted(key) + [COLON] + value)[0] == QUOTE
  {
  }

  lemma {:induction false} EntriesPrefix(
    v: Value, w: Value, es: seq<Member>, fs: seq<Member>, d: nat, e: nat, r: Text, q: Text)
    requires v.Obj? && w.Obj?
    requires (forall m :: m in es ==> m in v.members) && (forall m :: m in fs ==> m in w.members)
    requires EncodeEntries(v, es, d).Some? && EncodeEntries(w, fs, e).Some?
    requires Join(EncodeEntries(v, es, d).value) + ([CLOSE_BRACE] + r) ==
             Join(EncodeEntries(w, fs, e).value) + ([CLOSE_BRACE] + q)
    ensures SameEntries(es, fs)
    ensures EncodeEntries(v, es, d) == EncodeEntries(w, fs, e) && r == q
    decreases v, 0, 0, |es|
  {
    hide Join, Encode, EncodeEntries, Same, Quoted, WellFormed;
    EntryTexts(v, es, d);
    EntryTexts(w, fs, e);
    var ss, ts := EncodeEntries(v, es, d).value, EncodeEntries(w, fs, e).value;
    if es != [] {
      EntryHead(es[0].key, Encode(es[0].value, d).value, []);
    }
    if fs != [] {
      EntryHead(fs[0].key, Encode(fs[0].value, e).value, []);
    }
    ListStart(ss, CLOSE_BRACE, r);
    ListStart(ts, CLOSE_BRACE, q);
    if es == [] {
      assert ss == [] && ts == [];
      JoinNothing(CLOSE_BRACE, r);
      JoinNothing(CLOSE_BRACE, q);
      DropFirst(CLOSE_BRACE, r, q);
    } else {
      JoinHead(ss, CLOSE_BRACE, r);
      JoinHead(ts, CLOSE_BRACE, q);
      assert es[0] in v.members;
      EntryPrefix(es[0], fs[0], d, e, After(ss, CLOSE_BRACE, r), After(ts, CLOSE_BRACE, q));
      AfterPrefix(ss, ts, CLOSE_BRACE, r, q);
      assert ss == [ss[0]] + ss[1..] && ts == [ts[0]] + ts[1..];
      if |es| > 1 {
        EntriesPrefix(v, w, es[1..], fs[1..], d, e, r, q);
        forall i | 0 <= i < |es|
          ensures es[i].key == fs[i].key && Same(es[i].value, fs[i].value)
        {
          if i > 0 {
            assert es[i] == es[1..][i - 1] && fs[i] == fs[1..][i - 1];
          }
        }
      }
    }
  }

  /** One member: its key, its value and what follows. */
  lemma EntryPrefix(m: Member, n: Member, d: nat, e: nat, r: Text, q: Text)
    requires Encode(m.value, d).Some? && Encode(n.value, e).Some? && Ends(r) && Ends(q)
    requires Quoted(m.key) + [COLON] + Encode(m.value, d).value + r ==
             Quoted(n.key) + [COLON] + Encode(n.value, e).value + q
    ensures m.key == n.key && Same(m.value, n.value) && Encode(m.value, d) == Encode(n.value, e) && r == q
    decreases m.value, 2
  {
    hide Encode, Quoted, Same;
    var s, t := Encode(m.value, d).value, Encode(n.value, e).value;
    EntryHead(m.key, s, r);
    EntryHead(n.key, t, q);
    QuotedPrefix(m.key, n.key, [COLON] + (s + r), [COLON] + (t + q));
    DropFirst(COLON, s + r, t + q);
    EncodePrefix(m.value, n.value, d, e, r, q);
  }

  lemma MatchFromEntries(ms: seq<Member>, ns: seq<Member>, i: nat) returns (j: nat)
    requires SameEntries(Entries(ms), Entries(ns)) && i < |ms| && ms[i].value != Undefined
    ensures j < |ns| && ms[i].key == ns[j].key && Same(ms[i].value, ns[j].value)
  {
    hide Entries, Same;
    var es, fs := Entries(ms), Entries(ns);
    EntriesHold(ms);
    EntriesHold(ns);
    assert ms[i] in es;
    var k :| 0 <= k < |es| && es[k] == ms[i];
    assert fs[k] in ns;
    j :| 0 <= j < |ns| && ns[j] == fs[k];
  }

  lemma DefinedFromEntries(ms: seq<Member>, ns: seq<Member>, j: nat)
    requires SameEntries(Entries(ms), Entries(ns)) && j < |ns| && ns[j].value != Undefined
    ensures HasDefined(ms, ns[j].key)
  {
    hide Entries, Same;
    var es, fs := Entries(ms), Entries(ns);
    EntriesHold(ms);
    EntriesHold(ns);
    assert ns[j] in fs;
    var k :| 0 <= k < |fs| && fs[k] == ns[j];
    assert es[k] in ms && es[k].value != Undefined;
    var i :| 0 <= i < |ms| && ms[i] == es[k];
  }

  /** Objects with the same written members are the same. */
  lemma SameFromEntries(v: Value, w: Value)
    requires v.Obj? && w.Obj? && SameEntries(Entries(v.members), Entries(w.members))
    ensures Same(v, w)
  {
    hide Entries, SameEntries, HasDefined;
    var ms, ns := v.members, w.members;
    forall i | 0 <= i < |ms| && ms[i].value != Undefined
      ensures exists j :: 0 <= j < |ns| && ms[i].key == ns[j].key && Same(ms[i].value, ns[j].value)
    {
      var j := MatchFromEntries(ms, ns, i);
    }
    forall j | 0 <= j < |ns| && ns[j].value != Undefined
      ensures HasDefined(ms, ns[j].key)
    {
      DefinedFromEntries(ms, ns, j);
    }
  }

  /* ----- Same values have the same text ----- */

  function Keys(members: seq<Member>): (keys: seq<Text>)
    ensures |keys| == |members| && forall i :: 0 <= i < |keys| ==> keys[i] == members[i].key
  {
    seq(|members|, i requires 0 <= i < |members| => members[i].key)
  }

  predicate HasKey(members: seq<Member>, key: Text) {
    exists i :: 0 <= i < |members| && members[i].key == key
  }

  lemma {:induction false} InsertSorts(m: Member, members: seq<Member>)
    requires Ascending(Keys(members)) && !HasKey(members, m.key)
    ensures Ascending(Keys(Insert(m, members)))
  {
    hide Less;
    if members == [] || Less(m.key, members[0].key) {
      InsertInFront(m, members);
    } else {
      var rest := members[1..];
      LessTotal(m.key, members[0].key);
      RestSorted(members);
      InsertSorts(m, rest);
      InsertHolds(m, rest);
      var placed := Insert(m, rest);
      forall i | 0 <= i < |placed|
        ensures Less(members[0].key, placed[i].key)
      {
        assert placed[i] in placed;
        if placed[i] != m {
          var k :| 0 <= k < |rest| && rest[k] == placed[i];
          assert members[k + 1] == rest[k] && Less(Keys(members)[0], Keys(members)[k + 1]);
        }
      }
      InFront(members[0], placed);
    }
  }

  lemma RestSorted(members: seq<Member>)
    requires members != [] && Ascending(Keys(members))
    ensures Ascending(Keys(members[1..]))
    ensures forall key :: HasKey(members[1..], key) ==> HasKey(members, key)
  {
    var rest := members[1..];
    forall i, j | 0 <= i < j < |rest|
      ensures Less(Keys(rest)[i], Keys(rest)[j])
    {
      assert Less(Keys(members)[i + 1], Keys(members)[j + 1]);
    }
    forall key | HasKey(rest, key)
      ensures HasKey(members, key)
    {
      var i :| 0 <= i < |rest| && rest[i].key == key;
      assert members[i + 1].key == key;
    }
  }

  lemma InFront(m: Member, members: seq<Member>)
    requires Ascending(Keys(members)) && forall i :: 0 <= i < |members| ==> Less(m.key, members[i].key)
    ensures Ascending(Keys([m] + members))
  {
    var keys := Keys([m] + members);
    forall i, j | 0 <= i < j < |keys|
      ensures Less(keys[i], keys[j])
    {
      assert keys[j] == Keys(members)[j - 1];
      if i > 0 {
        assert keys[i] == Keys(members)[i - 1];
      }
    }
  }

  lemma InsertInFront(m: Member, members: seq<Member>)
    requires Ascending(Keys(members)) && (members == [] || Less(m.key, members[0].key))
    ensures Ascending(Keys([m] + members))
  {
    forall i | 0 <= i < |members|
      ensures Less(m.key, members[i].key)
    {
      if i > 0 {
        assert Less(Keys(members)[0], Keys(members)[i]);
        LessTransitive(m.key, members[0].key, members[i].key);
      }
    }
    InFront(m, members);
  }

  lemma SortKeepsKeys(members: seq<Member>, key: Text)
    ensures HasKey(Sort(members), key) ==> HasKey(members, key)
  {
    SortHolds(members);
    if HasKey(Sort(members), key) {
      var i :| 0 <= i < |Sort(members)| && Sort(members)[i].key == key;
      assert Sort(members)[i] in members;
    }
  }

  lemma HeadKeyIsNew(members: seq<Member>)
    requires members != [] && DistinctKeys(members)
    ensures !HasKey(members[1..], members[0].key)
  {
  }

  lemma {:induction false} SortSorts(members: seq<Member>)
    requires DistinctKeys(members)
    ensures Ascending(Keys(Sort(members)))
  {
    if members != [] {
      var rest := members[1..];
      SortSorts(rest);
      SortKeepsKeys(rest, members[0].key);
      HeadKeyIsNew(members);
      InsertSorts(members[0], Sort(rest));
    }
  }

  lemma {:induction false} DefinedSorts(members: seq<Member>)
    requires Ascending(Keys(members))
    ensures Ascending(Keys(Defined(members)))
  {
    hide Less;
    if members != [] {
      RestSorted(members);
      DefinedSorts(members[1..]);
      DefinedHolds(members[1..]);
      var rest := Defined(members[1..]);
      if members[0].value != Undefined {
        forall i | 0 <= i < |rest|
          ensures Less(members[0].key, rest[i].key)
        {
          assert rest[i] in members[1..];
          var k :| 0 <= k < |members[1..]| && members[1..][k] == rest[i];
          assert Less(Keys(members)[0], Keys(members)[k + 1]);
        }
        InFront(members[0], rest);
      }
    }
  }

  lemma EntriesSorted(members: seq<Member>)
    requires DistinctKeys(members)
    ensures Ascending(Keys(Entries(members)))
  {
    SortSorts(members);
    DefinedSorts(Sort(members));
  }

  lemma KeyOfEntry(members: seq<Member>, key: Text)
    ensures key in Keys(Entries(members)) <==> HasDefined(members, key)
  {
    hide Entries;
    EntriesHold(members);
    var es := Entries(members);
    if key in Keys(es) {
      var k :| 0 <= k < |es| && es[k].key == key;
      assert es[k] in members;
      var i :| 0 <= i < |members| && members[i] == es[k];
    }
    if HasDefined(members, key) {
      var i :| 0 <= i < |members| && members[i].key == key && members[i].value != Undefined;
      assert members[i] in es;
      var k :| 0 <= k < |es| && es[k] == members[i];
      assert Keys(es)[k] == key;
    }
  }

  lemma SameUndefined(v: Value, w: Value)
    requires Same(v, w)
    ensures v == Undefined <==> w == Undefined
  {
  }

  /** The same objects write the same keys with the same values. */
  lemma SameKeys(v: Value, w: Value)
    requires v.Obj? && w.Obj? && Same(v, w) && DistinctKeys(v.members) && DistinctKeys(w.members)
    ensures SameEntries(Entries(v.members), Entries(w.members))
  {
    hide Entries, Less;
    var ms, ns := v.members, w.members;
    var es, fs := Entries(ms), Entries(ns);
    EntriesSorted(ms);
    EntriesSorted(ns);
    forall key
      ensures key in Keys(es) <==> key in Keys(fs)
    {
      KeyOfEntry(ms, key);
      KeyOfEntry(ns, key);
      SameKey(ms, ns, key);
    }
    AscendingIsUnique(Keys(es), Keys(fs));
    forall i | 0 <= i < |es|
      ensures es[i].key == fs[i].key && Same(es[i].value, fs[i].value)
    {
      assert Keys(es)[i] == Keys(fs)[i];
      SameMember(ms, ns, es[i], fs[i]);
    }
  }

  lemma SameKey(ms: seq<Member>, ns: seq<Member>, key: Text)
    requires Same(Obj(ms), Obj(ns))
    ensures HasDefined(ms, key) <==> HasDefined(ns, key)
  {
    if HasDefined(ms, key) {
      var i :| 0 <= i < |ms| && ms[i].key == key && ms[i].value != Undefined;
      var j :| 0 <= j < |ns| && ms[i].key == ns[j].key && Same(ms[i].value, ns[j].value);
      SameUndefined(ms[i].value, ns[j].value);
    }
    if HasDefined(ns, key) {
      var j :| 0 <= j < |ns| && ns[j].key == key && ns[j].value != Undefined;
      assert HasDefined(ms, ns[j].key);
    }
  }

  lemma SameMember(ms: seq<Member>, ns: seq<Member>, m: Member, n: Member)
    requires Same(Obj(ms), Obj(ns)) && DistinctKeys(ns)
    requires m in Entries(ms) && n in Entries(ns) && m.key == n.key
    ensures Same(m.value, n.value)
  {
    hide Entries;
    EntriesHold(ms);
    EntriesHold(ns);
    var i :| 0 <= i < |ms| && ms[i] == m;
    var j :| 0 <= j < |ns| && ms[i].key == ns[j].key && Same(ms[i].value, ns[j].value);
    var k :| 0 <= k < |ns| && ns[k] == n;
    assert j == k;
  }

  /** Same values have the same text, or are both refused. */
  lemma {:induction false} SameEncoded(v: Value, w: Value, d: nat)
    requires Same(v, w) && WellKeyed(v) && WellKeyed(w)
    ensures Encode(v, d) == Encode(w, d)
    decreases v, 1, 0
  {
    hide Entries, EncodeItems, EncodeEntries, Join, EscapeAll;
    if v.Arr? && d <= MAX_DEPTH {
      SameItems(v.items, w.items, d + 1);
    } else if v.Obj? && d <= MAX_DEPTH {
      SameKeys(v, w);
      EntriesHold(v.members);
      EntriesHold(w.members);
      SameEntryTexts(v, w, Entries(v.members), Entries(w.members), d + 1);
    }
  }

  lemma {:induction false} SameItems(xs: seq<Value>, ys: seq<Value>, d: nat)
    requires |xs| == |ys| && forall i :: 0 <= i < |xs| ==> Same(xs[i], ys[i])
    requires forall i :: 0 <= i < |xs| ==> WellKeyed(xs[i]) && WellKeyed(ys[i])
    ensures EncodeItems(xs, d) == EncodeItems(ys, d)
    decreases xs
  {
    hide Same, WellKeyed, Encode;
    if xs != [] {
      SameEncoded(xs[0], ys[0], d);
      SameItems(xs[1..], ys[1..], d);
    }
  }

  lemma {:induction false} SameEntryTexts(v: Value, w: Value, es: seq<Member>, fs: seq<Member>, d: nat)
    requires v.Obj? && w.Obj? && WellKeyed(v) && WellKeyed(w) && SameEntries(es, fs)
    requires (forall m :: m in es ==> m in v.members) && (forall m :: m in fs ==> m in w.members)
    ensures EncodeEntries(v, es, d) == EncodeEntries(w, fs, d)
    decreases v, 0, |es|
  {
    hide Same, Encode;
    if es != [] {
      assert es[0] in v.members && fs[0] in w.members;
      var i :| 0 <= i < |v.members| && v.members[i] == es[0];
      var j :| 0 <= j < |w.members| && w.members[j] == fs[0];
      assert WellKeyed(v.members[i].value) && WellKeyed(w.members[j].value);
      SameEncoded(es[0].value, fs[0].value, d);
      SameEntryTexts(v, w, es[1..], fs[1..], d);
    }
  }

  /** The text is canonical: two accepted values have one text exactly when they are the same. */
  lemma CanonicalIsUnique(v: Value, w: Value)
    requires WellKeyed(v) && WellKeyed(w) && Canonical(v).Some? && Canonical(w).Some?
    ensures Canonical(v) == Canonical(w) <==> Same(v, w)
  {
    hide Encode, Same;
    if Same(v, w) {
      SameEncoded(v, w, 0);
    }
    if Canonical(v) == Canonical(w) {
      EncodePrefix(v, w, 0, 0, [], []);
    }
  }

  /* ----- What is accepted ----- */

  /** No part is unsupported, no number is infinite, no string has a lone surrogate, no item is undefined. */
  predicate Clean(v: Value)
    decreases v
  {
    match v
    case Null => true
    case Bool(_) => true
    case Num(number) => !number.NonFinite?
    case Str(text) => WellFormed(text)
    case Arr(items) => forall i :: 0 <= i < |items| ==> Clean(items[i])
    case Obj(members) =>
      forall m :: m in members && m.value != Undefined ==> WellFormed(m.key) && Clean(m.value)
    case Undefined => false
    case Unsupported => false
  }

  /** Nothing that is written lies more than `room` levels down. */
  predicate Fits(v: Value, room: nat)
    decreases v
  {
    match v
    case Arr(items) => items == [] || (room > 0 && forall i :: 0 <= i < |items| ==> Fits(items[i], room - 1))
    case Obj(members) => forall m :: m in members && m.value != Undefined ==> room > 0 && Fits(m.value, room - 1)
    case _ => true
  }

  lemma {:induction false} AcceptedAt(v: Value, d: nat)
    ensures Encode(v, d).Some? <==> d <= MAX_DEPTH && Clean(v) && Fits(v, MAX_DEPTH - d)
    decreases v, 1, 0
  {
    hide Entries, EncodeItems, EncodeEntries, Join, EscapeAll, WellFormed;
    if d <= MAX_DEPTH {
      var room := MAX_DEPTH - d;
      if v.Arr? {
        ItemsAccepted(v.items, d + 1);
        if v.items != [] && EncodeItems(v.items, d + 1).Some? {
          assert Clean(v.items[0]);
          assert forall i :: 0 <= i < |v.items| ==> Fits(v.items[i], room - 1);
          assert Fits(v, room);
        }
        if v.items != [] && Clean(v) && Fits(v, room) {
          forall i | 0 <= i < |v.items|
            ensures Clean(v.items[i]) && Fits(v.items[i], MAX_DEPTH - (d + 1))
          {
            assert Fits(v.items[i], room - 1);
          }
        }
      } else if v.Obj? {
        EntriesHold(v.members);
        EntriesAccepted(v, Entries(v.members), d + 1);
      }
    }
  }

  lemma {:induction false} ItemsAccepted(items: seq<Value>, d: nat)
    requires d >= 1
    ensures EncodeItems(items, d).Some? <==>
            forall i :: 0 <= i < |items| ==> d <= MAX_DEPTH && Clean(items[i]) && Fits(items[i], MAX_DEPTH - d)
    decreases items
  {
    hide Encode, Clean, Fits;
    if items != [] {
      AcceptedAt(items[0], d);
      ItemsAccepted(items[1..], d);
      assert items == [items[0]] + items[1..];
    }
  }

  lemma {:induction false} EntriesAccepted(v: Value, entries: seq<Member>, d: nat)
    requires v.Obj? && (forall m :: m in entries ==> m in v.members) && d >= 1
    ensures EncodeEntries(v, entries, d).Some? <==>
            forall m :: m in entries ==>
                          d <= MAX_DEPTH && WellFormed(m.key) && Clean(m.value) && Fits(m.value, MAX_DEPTH - d)
    decreases v, 0, |entries|
  {
    hide Encode, Clean, Fits, WellFormed;
    if entries != [] {
      assert entries[0] in v.members;
      AcceptedAt(entries[0].value, d);
      EntriesAccepted(v, entries[1..], d);
      assert entries == [entries[0]] + entries[1..];
    }
  }

  /** Exactly the clean values of at most 64 levels have a text. */
  lemma CanonicalAccepts(v: Value)
    ensures Canonical(v).Some? <==> Clean(v) && Fits(v, 64)
  {
    AcceptedAt(v, 0);
  }
}
