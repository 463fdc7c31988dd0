/** packages/crypto/src/aad.ts: the bytes that bind an envelope to its context. */
module Aad {
  import opened Wrappers
  import opened Utf16
  import opened CanonicalJson
  import opened CanonicalBytes
  import Utf8
  import CanonicalUnique

  const MAX_VALUE_LENGTH := 1024
  const MAX_SAFE_INTEGER := 9007199254740991

  /* ----- encodeAad ----- */

  const KEY_F: Text := [0x66]
  const KEY_P: Text := [0x70]
  /** "sym1", "symo1" and "symk1". */
  const FIELD_FORMAT: Text := [0x73, 0x79, 0x6D, 0x31]
  const OBJECT_FORMAT: Text := [0x73, 0x79, 0x6D, 0x6F, 0x31]
  const KEY_WRAP_FORMAT: Text := [0x73, 0x79, 0x6D, 0x6B, 0x31]

  predicate IsDigits(text: Text) {
    forall i :: 0 <= i < |text| ==> 0x30 <= text[i] <= 0x39
  }

  /** The number that some digits are. */
  function Numeral(text: Text): int
  {
    if text == [] then 0 else 10 * Numeral(text[..|text| - 1]) + text[|text| - 1] as int - 0x30
  }

  /** The text of a non-negative safe integer. */
  predicate IsSafeNatural(text: NumberText) {
    IsDigits(text) && (text[0] != DIGIT_ZERO || |text| == 1) && Numeral(text) <= MAX_SAFE_INTEGER
  }

  /** What a field may hold: a string of 1 to 1024 units, or a non-negative safe integer other than -0. */
  predicate IsFieldValue(v: Value) {
    match v
    case Str(text) => 1 <= |text| <= MAX_VALUE_LENGTH && WellFormed(text)
    case Num(number) => number.Finite? && IsSafeNatural(number.text)
    case _ => false
  }

  predicate IsFieldName(name: Text) {
    1 <= |name| <= 16 && forall i :: 0 <= i < |name| ==> 0x61 <= name[i] <= 0x7A
  }

  /** The member's value, or undefined. */
  function Get(members: seq<Member>, key: Text): Value {
    if members == [] then Undefined
    else if members[0].key == key then members[0].value
    else Get(members[1..], key)
  }

  /** A plain object with a known format, a purpose, and nothing but valid names and values. */
  predicate IsAad(v: Value) {
    && v.Obj?
    && Get(v.members, KEY_F) in {Str(FIELD_FORMAT), Str(OBJECT_FORMAT), Str(KEY_WRAP_FORMAT)}
    && Get(v.members, KEY_P).Str?
    && forall m :: m in v.members ==> IsFieldName(m.key) && IsFieldValue(m.value)
  }

  function EncodeFieldValue(v: Value): (text: Option<Text>)
    ensures text.Some? <==> IsFieldValue(v)
    ensures text.Some? ==> text == Encode(v, 1)
  {
    match v
    case Str(t) => if |t| == 0 || |t| > MAX_VALUE_LENGTH || !WellFormed(t) then None else Some(Quoted(t))
    case Num(number) => if number.Finite? && IsSafeNatural(number.text) then Some(number.text) else None
    case _ => None
  }

  lemma FieldNameWellFormed(name: Text)
    requires IsFieldName(name)
    ensures WellFormed(name)
  {
  }

  /** One round of the loop over the sorted names. */
  lemma NextField(v: Value, sorted: seq<Member>, i: nat, parts: seq<Text>)
    requires v.Obj? && i < |sorted| && forall m :: m in sorted ==> m in v.members
    requires IsFieldName(sorted[i].key) && IsFieldValue(sorted[i].value)
    ensures forall j :: 0 <= j <= |sorted| ==> forall m :: m in Defined(sorted[j..]) ==> m in v.members
    ensures Prepend(parts, EncodeEntries(v, Defined(sorted[i..]), 1)) ==
            Prepend(parts + [Quoted(sorted[i].key) + [COLON] + EncodeFieldValue(sorted[i].value).value],
                    EncodeEntries(v, Defined(sorted[i + 1..]), 1))
  {
    hide Encode, EncodeEntries, Prepend, EncodeFieldValue, WellFormed;
    NextEntry(v, sorted, i, parts, 1);
    FieldNameWellFormed(sorted[i].key);
    assert Encode(sorted[i].value, 1) == EncodeFieldValue(sorted[i].value);
  }

  /** encodeAad(fields), before its last step to UTF-8: the canonical JSON of the fields, if they are accepted. */
  method EncodeAad(fields: Value) returns (text: Option<Text>)
    ensures text == if IsAad(fields) then Canonical(fields) else None
  {
    hide Join, Sort, EncodeEntries, Quoted, EncodeFieldValue, IsFieldName, IsFieldValue, Get, Prepend;
    if !fields.Obj? {
      return None;
    }
    var sorted := Sort(fields.members);
    SortHolds(fields.members);
    if Get(fields.members, KEY_F) !in {Str(FIELD_FORMAT), Str(OBJECT_FORMAT), Str(KEY_WRAP_FORMAT)} {
      return None;
    }
    if !Get(fields.members, KEY_P).Str? {
      return None;
    }
    DefinedFromSorted(fields, sorted);
    assert sorted[0..] == sorted;
    var parts: seq<Text> := [];
    PrependEnds(parts, EncodeEntries(fields, Entries(fields.members), 1));
    for index := 0 to |sorted|
      invariant forall k :: 0 <= k < index ==> IsFieldName(sorted[k].key) && IsFieldValue(sorted[k].value)
      invariant EncodeEntries(fields, Entries(fields.members), 1) ==
                Prepend(parts, EncodeEntries(fields, Defined(sorted[index..]), 1))
    {
      var m := sorted[index];
      assert m in fields.members;
      if !IsFieldName(m.key) {
        return None;
      }
      var value := EncodeFieldValue(m.value);
      if value.None? {
        return None;
      }
      NextField(fields, sorted, index, parts);
      parts := parts + [Quoted(m.key) + [COLON] + value.value];
    }
    FieldsEnd(fields, sorted, parts);
    text := Some([OPEN_BRACE] + Join(parts) + [CLOSE_BRACE]);
  }

  lemma FieldsEnd(v: Value, sorted: seq<Member>, parts: seq<Text>)
    requires v.Obj? && sorted == Sort(v.members)
    requires forall m :: m in Entries(v.members) ==> m in v.members
    requires forall m :: m in Defined(sorted[|sorted|..]) ==> m in v.members
    requires EncodeEntries(v, Entries(v.members), 1) == Prepend(parts, EncodeEntries(v, Defined(sorted[|sorted|..]), 1))
    ensures Canonical(v) == Some([OPEN_BRACE] + Join(parts) + [CLOSE_BRACE])
  {
    hide Join, Sort;
    assert sorted[|sorted|..] == [];
    PrependEnds(parts, None);
  }

  /** The bytes encodeAad returns. */
  function AadBytes(v: Value): Option<seq<Utf8.Byte>> {
    if IsAad(v) then CanonicalUtf8(v) else None
  }

  ghost predicate SameFields(v: Value, w: Value) {
    v.Obj? && w.Obj? && forall m :: m in v.members <==> m in w.members
  }

  /** Accepted fields are always encoded, and their bytes are equal exactly when the fields are. */
  lemma AadIsUnique(v: Value, w: Value)
    requires WellKeyed(v) && WellKeyed(w) && IsAad(v) && IsAad(w)
    ensures AadBytes(v).Some?
    ensures AadBytes(v) == AadBytes(w) <==> SameFields(v, w)
  {
    hide Encode, Canonical, WellFormed;
    AadAccepted(v);
    AadAccepted(w);
    BytesAreUnique(v, w);
    if Same(v, w) {
      SameMeansSameFields(v, w);
    }
    if SameFields(v, w) {
      SameFieldsAreSame(v, w);
    }
  }

  lemma AadAccepted(v: Value)
    requires IsAad(v)
    ensures Canonical(v).Some?
  {
    hide Encode, Get, WellFormed;
    forall m | m in v.members
      ensures WellFormed(m.key) && CanonicalUnique.Clean(m.value) && CanonicalUnique.Fits(m.value, MAX_DEPTH - 1)
    {
      FieldNameWellFormed(m.key);
    }
    CanonicalUnique.CanonicalAccepts(v);
  }

  lemma SameValue(a: Value, b: Value)
    requires IsFieldValue(a) && IsFieldValue(b) && Same(a, b)
    ensures a == b
  {
  }

  lemma FieldFound(v: Value, w: Value, m: Member)
    requires IsAad(v) && IsAad(w) && Same(v, w) && m in v.members
    ensures m in w.members
  {
    hide Get, IsFieldName, IsFieldValue;
    var ms, ns := v.members, w.members;
    var i :| 0 <= i < |ms| && ms[i] == m;
    FieldIsDefined(m.value);
    var j :| 0 <= j < |ns| && ms[i].key == ns[j].key && Same(ms[i].value, ns[j].value);
    assert ns[j] in ns;
    SameValue(m.value, ns[j].value);
  }

  lemma FieldIsDefined(a: Value)
    requires IsFieldValue(a)
    ensures a != Undefined
  {
  }

  lemma KeyFound(v: Value, w: Value, n: Member) returns (m: Member)
    requires IsAad(w) && v.Obj? && Same(v, w) && n in w.members
    ensures m in v.members && m.key == n.key
  {
    hide Get, IsFieldName, IsFieldValue;
    var ms, ns := v.members, w.members;
    var j :| 0 <= j < |ns| && ns[j] == n;
    FieldIsDefined(n.value);
    assert HasDefined(ms, ns[j].key);
    var i :| 0 <= i < |ms| && ms[i].key == ns[j].key;
    m := ms[i];
  }

  lemma SameMeansSameFields(v: Value, w: Value)
    requires v.Obj? && w.Obj? && IsAad(v) && IsAad(w) && Same(v, w) && DistinctKeys(w.members)
    ensures SameFields(v, w)
  {
    hide IsAad, Same;
    forall m | m in v.members
      ensures m in w.members
    {
      FieldFound(v, w, m);
    }
    forall n | n in w.members
      ensures n in v.members
    {
      var m := KeyFound(v, w, n);
      FieldFound(v, w, m);
      var i :| 0 <= i < |w.members| && w.members[i] == m;
      var j :| 0 <= j < |w.members| && w.members[j] == n;
      assert i == j;
    }
  }

  lemma SameFieldsAreSame(v: Value, w: Value)
    requires IsAad(v) && IsAad(w) && SameFields(v, w)
    ensures Same(v, w)
  {
    hide Get, IsFieldName;
    var ms, ns := v.members, w.members;
    forall i | 0 <= i < |ms| && ms[i].value != Undefined
      ensures exists j :: 0 <= j < |ns| && ms[i].key == ns[j].key && Same(ms[i].value, ns[j].value)
    {
      assert ms[i] in ms;
      var j :| 0 <= j < |ns| && ns[j] == ms[i];
      ValueIsItself(ms[i].value);
    }
    forall j | 0 <= j < |ns| && ns[j].value != Undefined
      ensures HasDefined(ms, ns[j].key)
    {
      assert ns[j] in ns;
      var i :| 0 <= i < |ms| && ms[i] == ns[j];
    }
  }

  lemma ValueIsItself(a: Value)
    requires IsFieldValue(a)
    ensures Same(a, a)
  {
  }
}
