/** packages/crypto/src/canonical-json.ts: the canonical text of a JavaScript value. */
module CanonicalJson {
  import opened Wrappers
  import opened Utf16
  import opened KeyOrder

  /* ----- Values ----- */

  const DIGIT_ZERO: CodeUnit := 0x30
  const MINUS: CodeUnit := 0x2D

  predicate IsDigitUnit(u: CodeUnit) {
    0x30 <= u <= 0x39
  }

  /** Where the digits that start at `i` end. */
  function DigitsEnd(text: Text, i: nat): (end: nat)
    requires i <= |text|
    ensures i <= end <= |text| && forall k :: i <= k < end ==> IsDigitUnit(text[k])
    ensures end < |text| ==> !IsDigitUnit(text[end])
    decreases |text| - i
  {
    if i < |text| && IsDigitUnit(text[i]) then DigitsEnd(text, i + 1) else i
  }

  function WholeStart(text: Text): nat {
    if text != [] && text[0] == MINUS then 1 else 0
  }

  /** After the digits before the point, and after the point and the digits behind it. */
  function FractionEnd(text: Text, i: nat): (end: nat)
    requires i <= |text|
    ensures i <= end <= |text|
  {
    if i < |text| && text[i] == 0x2E then DigitsEnd(text, i + 1) else i
  }

  /** Digits without leading zeros, then perhaps a point and digits, then perhaps e, a sign and digits. */
  predicate IsNumberText(text: Text) {
    var a := WholeStart(text);
    var b := DigitsEnd(text, a);
    var c := FractionEnd(text, b);
    && b > a && (text[a] == DIGIT_ZERO ==> b == a + 1) && c != b + 1
    && (c == |text| || (c + 2 < |text| && text[c] == 0x65 && (text[c + 1] == 0x2B || text[c + 1] == MINUS)
                        && DigitsEnd(text, c + 2) == |text|))
    && (a == 1 ==> text[1..] != [DIGIT_ZERO])
  }

  /** The text of a number other than -0, as section 6.1.6.1.20 of ECMA-262 prints it: it tells numbers apart. */
  type NumberText = text: Text | IsNumberText(text) witness [0x30]

  datatype Number = Finite(text: NumberText) | NegativeZero | NonFinite

  /** `Unsupported` is a bigint, a function, a symbol or an object that is no plain object. */
  datatype Value =
    | Null
    | Bool(b: bool)
    | Num(number: Number)
    | Str(text: Text)
    | Arr(items: seq<Value>)
    | Obj(members: seq<Member>)
    | Undefined
    | Unsupported

  datatype Member = Member(key: Text, value: Value)

  /** An object has every key once. */
  predicate DistinctKeys(members: seq<Member>) {
    forall i, j :: 0 <= i < j < |members| ==> members[i].key != members[j].key
  }

  predicate WellKeyed(v: Value)
    decreases v
  {
    match v
    case Arr(items) => forall i :: 0 <= i < |items| ==> WellKeyed(items[i])
    case Obj(members) => DistinctKeys(members) && forall i :: 0 <= i < |members| ==> WellKeyed(members[i].value)
    case _ => true
  }

  /** Numbers that are equal: -0 is 0. */
  predicate SameNumber(a: Number, b: Number) {
    a == b || (IsZero(a) && IsZero(b))
  }

  predicate IsZero(a: Number) {
    a == NegativeZero || a == Finite([DIGIT_ZERO])
  }

  /** Equal up to the order of members, members that are undefined, and -0. */
  predicate Same(v: Value, w: Value)
    decreases v
  {
    match (v, w)
    case (Num(a), Num(b)) => SameNumber(a, b)
    case (Arr(xs), Arr(ys)) => |xs| == |ys| && forall i :: 0 <= i < |xs| ==> Same(xs[i], ys[i])
    case (Obj(ms), Obj(ns)) =>
      && (forall i :: 0 <= i < |ms| && ms[i].value != Undefined ==>
                        exists j :: 0 <= j < |ns| && ms[i].key == ns[j].key && Same(ms[i].value, ns[j].value))
      && (forall j :: 0 <= j < |ns| && ns[j].value != Undefined ==> HasDefined(ms, ns[j].key))
    case (_, _) => v == w
  }

  predicate HasDefined(members: seq<Member>, key: Text) {
    exists i :: 0 <= i < |members| && members[i].key == key && members[i].value != Undefined
  }

  /* ----- Text ----- */

  const QUOTE: CodeUnit := 0x22
  const BACKSLASH: CodeUnit := 0x5C
  const COMMA: CodeUnit := 0x2C
  const COLON: CodeUnit := 0x3A
  const OPEN_BRACKET: CodeUnit := 0x5B
  const CLOSE_BRACKET: CodeUnit := 0x5D
  const OPEN_BRACE: CodeUnit := 0x7B
  const CLOSE_BRACE: CodeUnit := 0x7D
  const NULL: Text := [0x6E, 0x75, 0x6C, 0x6C]
  const TRUE: Text := [0x74, 0x72, 0x75, 0x65]
  const FALSE: Text := [0x66, 0x61, 0x6C, 0x73, 0x65]

  function HexDigit(d: nat): CodeUnit
    requires d < 16
  {
    if d < 10 then 0x30 + d else 0x57 + d
  }

  /** One unit of a well-formed string as JSON.stringify writes it. */
  function Escape(u: CodeUnit): Text {
    if u == QUOTE || u == BACKSLASH then [BACKSLASH, u]
    else if u == 0x08 then [BACKSLASH, 0x62]
    else if u == 0x09 then [BACKSLASH, 0x74]
    else if u == 0x0A then [BACKSLASH, 0x6E]
    else if u == 0x0C then [BACKSLASH, 0x66]
    else if u == 0x0D then [BACKSLASH, 0x72]
    else if u < 0x20 then [BACKSLASH, 0x75, 0x30, 0x30, HexDigit(u / 16), HexDigit(u % 16)]
    else [u]
  }

  /** The value of a hexadecimal digit of either case. */
  function HexValue(u: CodeUnit): int {
    if 0x30 <= u <= 0x39 then u as int - 0x30
    else if 0x61 <= u <= 0x66 then u as int - 0x61 + 10
    else if 0x41 <= u <= 0x46 then u as int - 0x41 + 10
    else -1
  }

  /** The unit that one character or one escape of a JSON string stands for (section 7 of RFC 8259). */
  function Unescape(piece: Text): int {
    if |piece| == 1 then piece[0]
    else if |piece| == 2 && piece[0] == BACKSLASH then
      match piece[1]
      case 0x62 => 0x08
      case 0x66 => 0x0C
      case 0x6E => 0x0A
      case 0x72 => 0x0D
      case 0x74 => 0x09
      case other => other
    else if |piece| == 6 && piece[0] == BACKSLASH && piece[1] == 0x75 then
      HexValue(piece[2]) * 0x1000 + HexValue(piece[3]) * 0x100 + HexValue(piece[4]) * 0x10 + HexValue(piece[5])
    else -1
  }

  /**
   * What is written for a unit stands for it. Only what must be escaped is (section 3.2.2.2 of RFC 8785), and
   * hexadecimal digits are in lower case.
   */
  lemma EscapeMeansUnit(u: CodeUnit)
    ensures Unescape(Escape(u)) == u
    ensures |Escape(u)| == 1 <==> u >= 0x20 && u != QUOTE && u != BACKSLASH
    ensures |Escape(u)| == 6 ==> forall i :: 0 <= i < 6 ==> !(0x41 <= Escape(u)[i] <= 0x46)
  {
    if |Escape(u)| == 6 {
      HexDigitTells(u / 16);
      HexDigitTells(u % 16);
    }
  }

  lemma HexDigitTells(d: nat)
    requires d < 16
    ensures HexValue(HexDigit(d)) == d && !(0x41 <= HexDigit(d) <= 0x46)
  {
  }

  function EscapeAll(text: Text): Text {
    if text == [] then [] else Escape(text[0]) + EscapeAll(text[1..])
  }

  function Quoted(text: Text): Text {
    [QUOTE] + EscapeAll(text) + [QUOTE]
  }

  function Join(texts: seq<Text>): Text {
    if texts == [] then []
    else if |texts| == 1 then texts[0]
    else texts[0] + [COMMA] + Join(texts[1..])
  }

  /* ----- Encoding ----- */

  const MAX_DEPTH := 64

  function Insert(m: Member, members: seq<Member>): seq<Member> {
    if members == [] || Less(m.key, members[0].key) then [m] + members
    else [members[0]] + Insert(m, members[1..])
  }

  /** The members in the order of their keys. */
  function Sort(members: seq<Member>): seq<Member> {
    if members == [] then [] else Insert(members[0], Sort(members[1..]))
  }

  function Defined(members: seq<Member>): seq<Member> {
    if members == [] then []
    else if members[0].value == Undefined then Defined(members[1..])
    else [members[0]] + Defined(members[1..])
  }

  /** What is written of an object. */
  function Entries(members: seq<Member>): seq<Member> {
    Defined(Sort(members))
  }

  lemma {:induction false} InsertHolds(m: Member, members: seq<Member>)
    ensures forall n :: n in Insert(m, members) <==> n == m || n in members
  {
    if members != [] && !Less(m.key, members[0].key) {
      InsertHolds(m, members[1..]);
      assert members == [members[0]] + members[1..];
    }
  }

  lemma {:induction false} SortHolds(members: seq<Member>)
    ensures forall n :: n in Sort(members) <==> n in members
  {
    if members != [] {
      SortHolds(members[1..]);
      InsertHolds(members[0], Sort(members[1..]));
      assert members == [members[0]] + members[1..];
    }
  }

  lemma {:induction false} DefinedHolds(members: seq<Member>)
    ensures forall n :: n in Defined(members) <==> n in members && n.value != Undefined
  {
    if members != [] {
      DefinedHolds(members[1..]);
      assert members == [members[0]] + members[1..];
    }
  }

  lemma EntriesHold(members: seq<Member>)
    ensures forall n :: n in Entries(members) <==> n in members && n.value != Undefined
  {
    SortHolds(members);
    DefinedHolds(Sort(members));
  }

  /** The text of a value at a nesting depth, unless it or a part of it is refused. */
  function Encode(v: Value, depth: nat): Option<Text>
    decreases v, 1, 0
  {
    if depth > MAX_DEPTH then None
    else
      match v
      case Null => Some(NULL)
      case Bool(b) => Some(if b then TRUE else FALSE)
      case Num(number) => EncodeNumber(number)
      case Str(text) => EncodeString(text)
      case Arr(items) =>
        var texts := EncodeItems(items, depth + 1);
        if texts.None? then None else Some([OPEN_BRACKET] + Join(texts.value) + [CLOSE_BRACKET])
      case Obj(members) =>
        EntriesHold(members);
        var texts := EncodeEntries(v, Entries(members), depth + 1);
        if texts.None? then None else Some([OPEN_BRACE] + Join(texts.value) + [CLOSE_BRACE])
      case Undefined => None
      case Unsupported => None
  }

  function EncodeNumber(number: Number): Option<Text> {
    match number
    case Finite(text) => Some(text)
    case NegativeZero => Some([DIGIT_ZERO])
    case NonFinite => None
  }

  function EncodeString(text: Text): Option<Text> {
    if WellFormed(text) then Some(Quoted(text)) else None
  }

  function EncodeItems(items: seq<Value>, depth: nat): Option<seq<Text>>
    decreases items
  {
    if items == [] then Some([])
    else
      var first, rest := Encode(items[0], depth), EncodeItems(items[1..], depth);
      if first.None? || rest.None? then None else Some([first.value] + rest.value)
  }

  function EncodeEntry(key: Text, value: Option<Text>): Option<Text> {
    if value.None? || !WellFormed(key) then None else Some(Quoted(key) + [COLON] + value.value)
  }

  function EncodeEntries(ghost v: Value, entries: seq<Member>, depth: nat): Option<seq<Text>>
    requires v.Obj? && forall m :: m in entries ==> m in v.members
    decreases v, 0, |entries|
  {
    if entries == [] then Some([])
    else
      assert entries[0] in v.members;
      var first := EncodeEntry(entries[0].key, Encode(entries[0].value, depth));
      var rest := EncodeEntries(v, entries[1..], depth);
      if first.None? || rest.None? then None else Some([first.value] + rest.value)
  }

  function Canonical(v: Value): Option<Text> {
    Encode(v, 0)
  }

  /* ----- The loops of encode ----- */

  function Prepend(texts: seq<Text>, rest: Option<seq<Text>>): Option<seq<Text>> {
    if rest.None? then None else Some(texts + rest.value)
  }

  lemma PrependEnds(texts: seq<Text>, rest: Option<seq<Text>>)
    ensures Prepend([], rest) == rest && Prepend(texts, Some([])) == Some(texts)
  {
    if rest.Some? {
      assert [] + rest.value == rest.value;
    }
    assert texts + [] == texts;
  }

  lemma NextItem(items: seq<Value>, i: nat, texts: seq<Text>, depth: nat)
    requires i < |items|
    ensures Prepend(texts, EncodeItems(items[i..], depth)) ==
            var first := Encode(items[i], depth);
            if first.None? then None else Prepend(texts + [first.value], EncodeItems(items[i + 1..], depth))
  {
    hide Encode;
    assert items[i..][1..] == items[i + 1..];
    var first, rest := Encode(items[i], depth), EncodeItems(items[i + 1..], depth);
    if first.Some? && rest.Some? {
      assert texts + ([first.value] + rest.value) == texts + [first.value] + rest.value;
    }
  }

  lemma NextEntry(v: Value, sorted: seq<Member>, i: nat, texts: seq<Text>, depth: nat)
    requires v.Obj? && i < |sorted| && forall m :: m in sorted ==> m in v.members
    ensures forall j :: 0 <= j <= |sorted| ==> forall m :: m in Defined(sorted[j..]) ==> m in v.members
    ensures Prepend(texts, EncodeEntries(v, Defined(sorted[i..]), depth)) ==
            if sorted[i].value == Undefined then Prepend(texts, EncodeEntries(v, Defined(sorted[i + 1..]), depth))
            else
              var first := EncodeEntry(sorted[i].key, Encode(sorted[i].value, depth));
              if first.None? then None
              else Prepend(texts + [first.value], EncodeEntries(v, Defined(sorted[i + 1..]), depth))
  {
    hide Encode, EncodeEntry;
    DefinedFromSorted(v, sorted);
    var rest := sorted[i + 1..];
    assert sorted[i..][1..] == rest;
    if sorted[i].value != Undefined {
      assert Defined(sorted[i..]) == [sorted[i]] + Defined(rest);
      assert ([sorted[i]] + Defined(rest))[1..] == Defined(rest);
      var first := EncodeEntry(sorted[i].key, Encode(sorted[i].value, depth));
      var more := EncodeEntries(v, Defined(rest), depth);
      if first.Some? && more.Some? {
        assert texts + ([first.value] + more.value) == texts + [first.value] + more.value;
      }
    }
  }

  lemma DefinedFromSorted(v: Value, sorted: seq<Member>)
    requires v.Obj? && forall m :: m in sorted ==> m in v.members
    ensures forall j :: 0 <= j <= |sorted| ==> forall m :: m in Defined(sorted[j..]) ==> m in v.members
  {
    forall j, m | 0 <= j <= |sorted| && m in Defined(sorted[j..])
      ensures m in v.members
    {
      DefinedHolds(sorted[j..]);
      assert m in sorted[j..];
    }
  }

  /** encode(value, depth): the first part it refuses ends it. */
  method EncodeValue(v: Value, depth: nat) returns (text: Option<Text>)
    ensures text == Encode(v, depth)
    decreases v
  {
    hide Join, Sort, Defined, EncodeItems, EncodeEntries, EscapeAll, WellFormed;
    if depth > MAX_DEPTH {
      return None;
    }
    match v {
      case Null => text := Some(NULL);
      case Bool(b) => text := Some(if b then TRUE else FALSE);
      case Num(number) => text := EncodeNumber(number);
      case Str(t) => text := EncodeString(t);
      case Arr(items) => text := EncodeArray(v, depth);
      case Obj(members) => text := EncodeObject(v, depth);
      case _ => text := None;
    }
  }

  method EncodeArray(v: Value, depth: nat) returns (text: Option<Text>)
    requires v.Arr? && depth <= MAX_DEPTH
    ensures text == Encode(v, depth)
    decreases v, 0
  {
    hide Join;
    var items := v.items;
    var texts: seq<Text> := [];
    assert items[0..] == items;
    PrependEnds([], EncodeItems(items, depth + 1));
    for index := 0 to |items|
      invariant EncodeItems(items, depth + 1) == Prepend(texts, EncodeItems(items[index..], depth + 1))
    {
      NextItem(items, index, texts, depth + 1);
      var item := EncodeValue(items[index], depth + 1);
      if item.None? {
        return None;
      }
      texts := texts + [item.value];
    }
    assert items[|items|..] == [];
    PrependEnds(texts, None);
    text := Some([OPEN_BRACKET] + Join(texts) + [CLOSE_BRACKET]);
  }

  method EncodeObject(v: Value, depth: nat) returns (text: Option<Text>)
    requires v.Obj? && depth <= MAX_DEPTH
    ensures text == Encode(v, depth)
    decreases v, 0
  {
    hide Join, Sort;
    var sorted := Sort(v.members);
    SortHolds(v.members);
    DefinedFromSorted(v, sorted);
    var texts: seq<Text> := [];
    assert sorted[0..] == sorted;
    PrependEnds([], EncodeEntries(v, Entries(v.members), depth + 1));
    for index := 0 to |sorted|
      invariant EncodeEntries(v, Entries(v.members), depth + 1) ==
                Prepend(texts, EncodeEntries(v, Defined(sorted[index..]), depth + 1))
    {
      NextEntry(v, sorted, index, texts, depth + 1);
      var m := sorted[index];
      if m.value == Undefined {
        continue;
      }
      assert m in v.members;
      var value := EncodeValue(m.value, depth + 1);
      var entry := EncodeEntry(m.key, value);
      if entry.None? {
        return None;
      }
      texts := texts + [entry.value];
    }
    assert sorted[|sorted|..] == [];
    PrependEnds(texts, None);
    text := Some([OPEN_BRACE] + Join(texts) + [CLOSE_BRACE]);
  }
}
