/** packages/crypto/src/canonical-json.ts: reading the canonical text of a value as JSON gives the value back. */
module CanonicalReading {
  import opened Wrappers
  import opened Utf16
  import opened JsonText
  import KeyOrder
  import C = CanonicalJson
  import U = CanonicalUnique

  /* ----- What a text should mean ----- */

  /** Equal up to some position, where `a` has ended or has the smaller unit. */
  ghost predicate Precedes(a: Text, b: Text) {
    exists n: nat :: n <= |a| && n < |b| && a[..n] == b[..n] && (n == |a| || a[n] < b[n])
  }

  /**
   * The JSON value that a JavaScript value stands for: members by rising key, undefined ones left out, and 0
   * for -0.
   */
  ghost predicate Means(j: Json, v: C.Value)
    decreases j
  {
    match v
    case Null => j.JsonNull?
    case Bool(b) => j == JsonBool(b)
    case Num(number) =>
      j.JsonNumber? && (match number case Finite(text) => j.text == text case NegativeZero => j.text == Units("0") case _ => false)
    case Str(text) => j == JsonString(text)
    case Arr(items) =>
      && j.JsonArray? && |j.items| == |items|
      && forall i :: 0 <= i < |items| ==> Means(j.items[i], items[i])
    case Obj(members) =>
      && j.JsonObject?
      && (forall i, k :: 0 <= i < k < |j.entries| ==> Precedes(j.entries[i].key, j.entries[k].key))
      && (forall k :: 0 <= k < |j.entries| ==> IsEntryOf(j.entries[k].key, j, k, members))
      && (forall i :: 0 <= i < |members| && members[i].value != C.Undefined ==>
                        exists k :: 0 <= k < |j.entries| && j.entries[k].key == members[i].key)
    case _ => false
  }

  /** The entry at `k` is a defined member. */
  ghost predicate IsEntryOf(key: Text, j: Json, k: nat, members: seq<C.Member>)
    requires j.JsonObject? && k < |j.entries|
    decreases j, 0
  {
    exists i :: 0 <= i < |members| && members[i].key == key && members[i].value != C.Undefined
                && Means(j.entries[k].value, members[i].value)
  }

  lemma {:induction false} LessPrecedes(a: Text, b: Text)
    requires KeyOrder.Less(a, b)
    ensures Precedes(a, b)
  {
    if a == [] || a[0] != b[0] {
      assert a[..0] == b[..0];
    } else {
      LessPrecedes(a[1..], b[1..]);
      var n: nat :| n <= |a[1..]| && n < |b[1..]| && a[1..][..n] == b[1..][..n] && (n == |a[1..]| || a[1..][n] < b[1..][n]);
      assert a[..n + 1] == [a[0]] + a[1..][..n] && b[..n + 1] == [b[0]] + b[1..][..n];
    }
  }

  /* ----- Strings ----- */

  lemma HexReads(d: nat)
    requires d < 16
    ensures HexOf(C.HexDigit(d)) == Some(d)
  {
  }

  /** A control character without a short escape. */
  lemma ControlReads(u: CodeUnit, rest: Text)
    requires u < 0x20
    ensures ReadHex([0x30, 0x30, C.HexDigit(u / 16), C.HexDigit(u % 16)] + rest) == Read(u, rest)
  {
    var s := [0x30, 0x30, C.HexDigit(u / 16), C.HexDigit(u % 16)] + rest;
    HexReads(0);
    HexReads(u / 16);
    HexReads(u % 16);
    hide HexOf;
    assert C.HexDigit(0) == 0x30;
    assert s[4..] == rest;
  }

  lemma EscapeReads(u: CodeUnit, rest: Text)
    ensures var s := C.Escape(u) + rest;
            s != [] && !StartsWith(s, '"') && ReadUnit(s) == Read(u, rest)
  {
    hide ReadHex, C.HexDigit;
    var e := C.Escape(u);
    var s := e + rest;
    assert s[|e|..] == rest;
    if |e| == 6 {
      ControlReads(u, rest);
      assert s[2..] == e[2..] + rest;
    }
  }

  lemma {:induction false} StringReads(text: Text, rest: Text)
    ensures ReadString(C.EscapeAll(text) + ([C.QUOTE] + rest)) == Read(text, rest)
  {
    hide C.Escape, ReadUnit;
    U.EscapeAllHead(text, rest);
    if text == [] {
      assert ([C.QUOTE] + rest)[1..] == rest;
    } else {
      var more := C.EscapeAll(text[1..]) + ([C.QUOTE] + rest);
      EscapeReads(text[0], more);
      StringReads(text[1..], rest);
      assert text == [text[0]] + text[1..];
    }
  }

  lemma QuotedReads(text: Text, rest: Text)
    ensures var s := C.Quoted(text) + rest;
            StartsWith(s, '"') && ReadString(s[1..]) == Read(text, rest)
  {
    hide ReadString, C.EscapeAll;
    StringReads(text, rest);
    var s := C.Quoted(text) + rest;
    assert s == [C.QUOTE] + (C.EscapeAll(text) + ([C.QUOTE] + rest));
  }

  /* ----- Numbers ----- */

  lemma {:induction false} DigitsRead(text: Text, rest: Text, i: nat)
    requires i <= |text| && (C.DigitsEnd(text, i) == |text| ==> !DigitAt(rest, 0))
    ensures PastDigits(text + rest, i) == C.DigitsEnd(text, i)
    decreases |text| - i
  {
    var s := text + rest;
    if i < |text| {
      assert s[i] == text[i];
      if C.IsDigitUnit(text[i]) {
        DigitsRead(text, rest, i + 1);
      }
    } else {
      assert DigitAt(s, i) <==> DigitAt(rest, 0);
    }
  }

  lemma NumberReads(text: C.NumberText, rest: Text)
    requires U.Ends(rest)
    ensures ReadNumber(text + rest) == Read(JsonNumber(text), rest)
  {
    hide C.DigitsEnd, PastDigits;
    var s := text + rest;
    var a := C.WholeStart(text);
    var b := C.DigitsEnd(text, a);
    var c := C.FractionEnd(text, b);
    assert forall i :: 0 <= i < |text| ==> s[i] == text[i];
    assert |text| < |s| ==> s[|text|] == rest[0];
    DigitsRead(text, rest, a);
    if b < |text| && text[b] == 0x2E {
      DigitsRead(text, rest, b + 1);
    }
    if c < |text| {
      DigitsRead(text, rest, c + 2);
    }
    assert PastInt(s, a) == b;
    assert PastFraction(s, b) == c;
    assert PastExponent(s, c) == |text|;
    assert s[..|text|] == text && s[|text|..] == rest;
  }

  /* ----- Values ----- */

  predicate IsSpaceUnit(u: CodeUnit) {
    u == 0x20 || u == 0x09 || u == 0x0A || u == 0x0D
  }

  lemma NoSpace(s: Text)
    requires s != [] && !IsSpaceUnit(s[0])
    ensures SkipSpace(s) == s
  {
  }

  /** The text of a value begins with no white space. */
  lemma TextBegins(v: C.Value, d: nat)
    requires C.Encode(v, d).Some?
    ensures C.Encode(v, d).value != [] && !IsSpaceUnit(C.Encode(v, d).value[0])
  {
    hide C.Join, C.EscapeAll, C.EncodeItems, C.EncodeEntries, C.Entries, C.DigitsEnd;
  }

  /** A literal and what follows it. */
  lemma LiteralText(v: C.Value, d: nat, rest: Text)
    requires (v.Null? || v.Bool?) && C.Encode(v, d).Some? && U.Ends(rest)
    ensures C.Encode(v, d) == Some(if v.Null? then Units("null") else if v.b then Units("true") else Units("false"))
    ensures ReadValue(C.Encode(v, d).value + rest) == Read(if v.Null? then JsonNull else JsonBool(v.b), rest)
  {
    var text := C.Encode(v, d).value;
    var s := text + rest;
    NoSpace(s);
    assert s[0] == text[0] && s[..|text|] == text && s[|text|..] == rest;
    if v.Null? {
      assert text == Units("null");
    } else if v.b {
      assert text == Units("true");
    } else {
      assert text == Units("false");
    }
  }

  lemma NumberTextReads(v: C.Value, d: nat, rest: Text)
    requires v.Num? && C.Encode(v, d).Some? && U.Ends(rest)
    ensures ReadValue(C.Encode(v, d).value + rest) == Read(JsonNumber(C.Encode(v, d).value), rest)
    ensures Means(JsonNumber(C.Encode(v, d).value), v)
  {
    hide C.DigitsEnd, ReadNumber, ReadString, ReadItems, ReadEntries, SkipSpace,
         C.Escape, C.EscapeAll, C.EncodeItems, C.EncodeEntries, C.Entries;
    var text := C.Encode(v, d).value;
    var s := text + rest;
    TextBegins(v, d);
    NoSpace(s);
    assert s[0] == text[0] && s[..|text|] == text && s[|text|..] == rest;
    ZeroIsNumber();
    NumberReads(text, rest);
    assert s[0] == 0x2D || 0x30 <= s[0] <= 0x39;
    assert text == Units("0") || v.number.Finite?;
  }

  lemma WordReads(v: C.Value, d: nat, rest: Text) returns (j: Json)
    requires U.IsWord(v) && C.Encode(v, d).Some? && U.Ends(rest)
    ensures ReadValue(C.Encode(v, d).value + rest) == Read(j, rest) && Means(j, v)
  {
    hide C.Encode, ReadValue;
    match v {
      case Null =>
        LiteralText(v, d, rest);
        j := JsonNull;
      case Bool(b) =>
        LiteralText(v, d, rest);
        j := JsonBool(b);
      case Num(_) =>
        NumberTextReads(v, d, rest);
        j := JsonNumber(C.Encode(v, d).value);
    }
  }

  lemma ZeroIsNumber()
    ensures C.IsNumberText([C.DIGIT_ZERO]) && [C.DIGIT_ZERO] == Units("0")
  {
  }

  /** The text of an accepted value, followed by what can follow a value, reads as that value. */
  lemma {:induction false} EncodeReads(v: C.Value, d: nat, rest: Text) returns (j: Json)
    requires C.Encode(v, d).Some? && C.WellKeyed(v) && U.Ends(rest)
    ensures ReadValue(C.Encode(v, d).value + rest) == Read(j, rest) && Means(j, v)
    decreases v, 1
  {
    hide C.Join, C.EscapeAll, C.EncodeItems, C.EncodeEntries, C.Entries, ReadValue, ReadString, Means, C.Quoted;
    if v.Str? {
      j := StringValueReads(v, d, rest);
    } else if v.Arr? {
      j := ArrayReads(v, d, rest);
    } else if v.Obj? {
      j := ObjectReads(v, d, rest);
    } else {
      j := WordReads(v, d, rest);
    }
  }

  lemma StringValueReads(v: C.Value, d: nat, rest: Text) returns (j: Json)
    requires v.Str? && C.Encode(v, d).Some?
    ensures ReadValue(C.Encode(v, d).value + rest) == Read(j, rest) && Means(j, v)
  {
    hide C.EscapeAll, C.Quoted, ReadString;
    QuotedReads(v.text, rest);
    NoSpace(C.Quoted(v.text) + rest);
    j := JsonString(v.text);
  }

  lemma ArrayReads(v: C.Value, d: nat, rest: Text) returns (j: Json)
    requires v.Arr? && C.Encode(v, d).Some? && C.WellKeyed(v)
    ensures ReadValue(C.Encode(v, d).value + rest) == Read(j, rest) && Means(j, v)
    decreases v, 0
  {
    hide C.Join, C.EncodeItems;
    var texts := C.EncodeItems(v.items, d + 1).value;
    var inner := C.Join(texts) + ([C.CLOSE_BRACKET] + rest);
    U.BracketText(C.OPEN_BRACKET, C.Join(texts), C.CLOSE_BRACKET, rest);
    var s := C.Encode(v, d).value + rest;
    assert s == [C.OPEN_BRACKET] + inner && s[1..] == inner;
    NoSpace(s);
    var items: seq<Json> := [];
    U.ItemTexts(v.items, d + 1);
    if v.items == [] {
      U.JoinNothing(C.CLOSE_BRACKET, rest);
      NoSpace(inner);
      assert inner[1..] == rest;
    } else {
      items := ItemsRead(v.items, d + 1, rest);
      U.JoinHead(texts, C.CLOSE_BRACKET, rest);
      U.FirstUnit(v.items[0], d + 1);
      TextBegins(v.items[0], d + 1);
      NoSpace(inner);
    }
    j := JsonArray(items);
    assert ReadArray(inner) == Read(items, rest);
  }

  lemma {:induction false} ItemsRead(items: seq<C.Value>, d: nat, rest: Text) returns (js: seq<Json>)
    requires items != [] && C.EncodeItems(items, d).Some? && forall i :: 0 <= i < |items| ==> C.WellKeyed(items[i])
    ensures ReadItems(C.Join(C.EncodeItems(items, d).value) + ([C.CLOSE_BRACKET] + rest)) == Read(js, rest)
    ensures |js| == |items| && forall i :: 0 <= i < |items| ==> Means(js[i], items[i])
    decreases items
  {
    hide C.Join, C.Encode, C.EncodeItems, Means, ReadValue;
    U.ItemTexts(items, d);
    var texts := C.EncodeItems(items, d).value;
    U.JoinHead(texts, C.CLOSE_BRACKET, rest);
    var after := U.After(texts, C.CLOSE_BRACKET, rest);
    var first := EncodeReads(items[0], d, after);
    NoSpace(after);
    if |items| == 1 {
      js := [first];
      assert after[1..] == rest;
    } else {
      var more := ItemsRead(items[1..], d, rest);
      assert after[1..] == C.Join(texts[1..]) + ([C.CLOSE_BRACKET] + rest);
      js := [first] + more;
      assert forall i :: 1 <= i < |items| ==> js[i] == more[i - 1] && items[i] == items[1..][i - 1];
    }
  }

  lemma EntryReads(m: C.Member, d: nat, rest: Text) returns (e: Entry)
    requires C.Encode(m.value, d).Some? && C.WellKeyed(m.value) && U.Ends(rest)
    ensures ReadEntry(C.Quoted(m.key) + [C.COLON] + C.Encode(m.value, d).value + rest) == Read(e, rest)
    ensures e.key == m.key && Means(e.value, m.value)
    decreases m.value, 2
  {
    hide C.Encode, C.Quoted, Means, ReadValue, ReadString;
    var text := C.Encode(m.value, d).value;
    var s, t := C.Quoted(m.key) + [C.COLON] + text + rest, [C.COLON] + (text + rest);
    U.EntryHead(m.key, text, rest);
    QuotedReads(m.key, t);
    NoSpace(s);
    NoSpace(t);
    assert t[1..] == text + rest;
    var value := EncodeReads(m.value, d, rest);
    e := Entry(m.key, value);
  }

  lemma {:induction false} EntriesRead(v: C.Value, entries: seq<C.Member>, d: nat, rest: Text) returns (es: seq<Entry>)
    requires v.Obj? && C.WellKeyed(v) && entries != [] && (forall m :: m in entries ==> m in v.members)
    requires C.EncodeEntries(v, entries, d).Some?
    ensures ReadEntries(C.Join(C.EncodeEntries(v, entries, d).value) + ([C.CLOSE_BRACE] + rest)) == Read(es, rest)
    ensures |es| == |entries|
    ensures forall k :: 0 <= k < |es| ==> es[k].key == entries[k].key && Means(es[k].value, entries[k].value)
    decreases v, 0, 0, |entries|
  {
    hide C.Join, C.Encode, C.EncodeEntries, C.Quoted, Means, ReadEntry, WellFormed;
    U.EntryTexts(v, entries, d);
    var texts := C.EncodeEntries(v, entries, d).value;
    U.JoinHead(texts, C.CLOSE_BRACE, rest);
    var after := U.After(texts, C.CLOSE_BRACE, rest);
    assert entries[0] in v.members;
    MemberWellKeyed(v, entries[0]);
    var first := EntryReads(entries[0], d, after);
    NoSpace(after);
    if |entries| == 1 {
      es := [first];
      assert after[1..] == rest;
    } else {
      var more := EntriesRead(v, entries[1..], d, rest);
      assert after[1..] == C.Join(texts[1..]) + ([C.CLOSE_BRACE] + rest);
      es := [first] + more;
      assert forall k :: 1 <= k < |es| ==> es[k] == more[k - 1] && entries[k] == entries[1..][k - 1];
    }
  }

  lemma MemberWellKeyed(v: C.Value, m: C.Member)
    requires v.Obj? && C.WellKeyed(v) && m in v.members
    ensures C.WellKeyed(m.value)
  {
  }

  lemma ObjectReads(v: C.Value, d: nat, rest: Text) returns (j: Json)
    requires v.Obj? && C.Encode(v, d).Some? && C.WellKeyed(v)
    ensures ReadValue(C.Encode(v, d).value + rest) == Read(j, rest) && Means(j, v)
    decreases v, 0, 1
  {
    hide C.Join, C.EncodeEntries, C.Entries, C.Quoted, Means;
    C.EntriesHold(v.members);
    var entries := C.Entries(v.members);
    var texts := C.EncodeEntries(v, entries, d + 1).value;
    var inner := C.Join(texts) + ([C.CLOSE_BRACE] + rest);
    U.BracketText(C.OPEN_BRACE, C.Join(texts), C.CLOSE_BRACE, rest);
    var s := C.Encode(v, d).value + rest;
    assert s == [C.OPEN_BRACE] + inner && s[1..] == inner;
    NoSpace(s);
    var es: seq<Entry> := [];
    U.EntryTexts(v, entries, d + 1);
    if entries == [] {
      U.JoinNothing(C.CLOSE_BRACE, rest);
      NoSpace(inner);
      assert inner[1..] == rest;
    } else {
      es := EntriesRead(v, entries, d + 1, rest);
      U.JoinHead(texts, C.CLOSE_BRACE, rest);
      U.EntryHead(entries[0].key, C.Encode(entries[0].value, d + 1).value, []);
      NoSpace(inner);
    }
    j := JsonObject(es);
    assert ReadObject(inner) == Read(es, rest);
    EntriesMean(v.members, es);
  }

  /** Entries that stand for the sorted defined members stand for the object. */
  lemma EntriesMean(members: seq<C.Member>, es: seq<Entry>)
    requires C.DistinctKeys(members) && |es| == |C.Entries(members)|
    requires forall k :: 0 <= k < |es| ==> es[k].key == C.Entries(members)[k].key && Means(es[k].value, C.Entries(members)[k].value)
    ensures Means(JsonObject(es), C.Obj(members))
  {
    hide C.Entries;
    var entries, j := C.Entries(members), JsonObject(es);
    C.EntriesHold(members);
    U.EntriesSorted(members);
    forall i, k | 0 <= i < k < |es|
      ensures Precedes(es[i].key, es[k].key)
    {
      assert KeyOrder.Less(U.Keys(entries)[i], U.Keys(entries)[k]);
      LessPrecedes(es[i].key, es[k].key);
    }
    forall k | 0 <= k < |es|
      ensures IsEntryOf(es[k].key, j, k, members)
    {
      assert entries[k] in members;
      var i :| 0 <= i < |members| && members[i] == entries[k];
    }
    forall i | 0 <= i < |members| && members[i].value != C.Undefined
      ensures exists k :: 0 <= k < |es| && es[k].key == members[i].key
    {
      assert members[i] in entries;
      var k :| 0 <= k < |entries| && entries[k] == members[i];
      assert es[k].key == members[i].key;
    }
  }

  /** The canonical text of a value is JSON, and means the value. */
  lemma CanonicalReadsBack(v: C.Value) returns (j: Json)
    requires C.WellKeyed(v) && C.Canonical(v).Some?
    ensures Parse(C.Canonical(v).value) == Some(j) && Means(j, v)
  {
    hide C.Encode, ReadValue, Means;
    j := EncodeReads(v, 0, []);
    assert C.Canonical(v).value + [] == C.Canonical(v).value;
  }
}
