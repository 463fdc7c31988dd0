/** packages/crypto/src/aad.ts: which fields are accepted, and which JSON object each kind of binding is. */
module AadReadings {
  import opened Wrappers
  import opened Utf16
  import opened JsonText
  import opened CanonicalReading
  import opened Aad
  import opened AadBindings
  import C = CanonicalJson
  import Decimal
  import Utf8

  /** The units of a text of ASCII characters. */
  function Ascii(s: string): Text {
    seq(|s|, i requires 0 <= i < |s| => if s[i] as int < 0x80 then s[i] as int else 0)
  }

  /* ----- Values of fields ----- */

  /** 1 to 1024 units without a lone surrogate. */
  predicate TextFits(t: Text) {
    1 <= |t| <= 1024 && WellFormed(t)
  }

  /** The decimal digits of a number, without leading zeros. */
  function Figures(n: nat): Text {
    if n < 10 then [0x30 + n] else Figures(n / 10) + [0x30 + n % 10]
  }

  lemma {:induction false} FiguresAre(n: nat)
    ensures DigitText(n) == Figures(n)
  {
    if n >= 10 {
      FiguresAre(n / 10);
      var front, all := DigitText(n / 10), DigitText(n);
      assert all[..|all| - 1] == front;
      assert all == all[..|all| - 1] + [all[|all| - 1]];
    } else {
      assert DigitText(n) == [0x30 + n];
    }
  }

  lemma NumeralOne(u: CodeUnit)
    ensures Numeral([u]) == u as int - 0x30
  {
    assert [u][..0] == [];
  }

  /** Digits without a leading zero are those of their number. */
  lemma {:induction false} NumeralIs(text: Text)
    requires text != [] && IsDigits(text) && (text[0] != C.DIGIT_ZERO || |text| == 1)
    ensures Numeral(text) >= 0 && Figures(Numeral(text)) == text
    ensures |text| > 1 ==> Numeral(text) >= 10
  {
    if |text| == 1 {
      assert text[..0] == [] && text == [text[0]];
    } else {
      var front := text[..|text| - 1];
      NumeralIs(front);
      NumeralOne(text[0]);
      assert |front| == 1 ==> front == [text[0]];
      assert text == front + [text[|text| - 1]];
    }
  }

  ghost predicate IsWholeBelow(text: Text) {
    exists n: nat :: n < 0x20_0000_0000_0000 && text == Figures(n)
  }

  /** The numbers accepted as values are exactly the whole ones below two to the 53. */
  lemma NaturalsExactly(text: C.NumberText)
    ensures IsSafeNatural(text) <==> IsWholeBelow(text)
  {
    if IsSafeNatural(text) {
      NumeralIs(text);
    }
    if n: nat :| n < 0x20_0000_0000_0000 && text == Figures(n) {
      FiguresAre(n);
      DigitsAreSafe(n);
    }
  }

  ghost predicate ValueFits(v: C.Value) {
    || (v.Str? && TextFits(v.text))
    || (v.Num? && v.number.Finite? && IsWholeBelow(v.number.text))
  }

  ghost predicate NameFits(name: Text) {
    1 <= |name| <= 16 && forall i :: 0 <= i < |name| ==> 'a' as int <= name[i] <= 'z' as int
  }

  lemma {:induction false} GetMeans(members: seq<C.Member>, key: Text, value: C.Value)
    requires C.DistinctKeys(members) && value != C.Undefined
    ensures Get(members, key) == value <==> C.Member(key, value) in members
  {
    if members != [] {
      assert members == [members[0]] + members[1..];
      GetMeans(members[1..], key, value);
    }
  }

  /** Accepted are exactly the objects with a known format, a purpose, and nothing but names and values that fit. */
  lemma AadExactly(v: C.Value)
    requires C.WellKeyed(v)
    ensures IsAad(v) <==>
            && v.Obj?
            && (|| C.Member(Ascii("f"), C.Str(Ascii("sym1"))) in v.members || C.Member(Ascii("f"), C.Str(Ascii("symo1"))) in v.members
                || C.Member(Ascii("f"), C.Str(Ascii("symk1"))) in v.members)
            && (exists t :: C.Member(Ascii("p"), C.Str(t)) in v.members)
            && forall m :: m in v.members ==> NameFits(m.key) && ValueFits(m.value)
  {
    if v.Obj? {
      hide Get, NameFits, ValueFits, IsFieldName, IsFieldValue;
      FormatsAre();
      forall value | value != C.Undefined
        ensures Get(v.members, KEY_F) == value <==> C.Member(KEY_F, value) in v.members
        ensures Get(v.members, KEY_P) == value <==> C.Member(KEY_P, value) in v.members
      {
        GetMeans(v.members, KEY_F, value);
        GetMeans(v.members, KEY_P, value);
      }
      forall m: C.Member
        ensures IsFieldName(m.key) && IsFieldValue(m.value) <==> NameFits(m.key) && ValueFits(m.value)
      {
        FieldMeans(m);
      }
    }
  }

  lemma FormatsAre()
    ensures KEY_F == Ascii("f") && KEY_P == Ascii("p")
    ensures FIELD_FORMAT == Ascii("sym1") && OBJECT_FORMAT == Ascii("symo1") && KEY_WRAP_FORMAT == Ascii("symk1")
  {
  }

  lemma FieldMeans(m: C.Member)
    ensures IsFieldName(m.key) <==> NameFits(m.key)
    ensures IsFieldValue(m.value) <==> ValueFits(m.value)
  {
    hide WellFormed, IsSafeNatural, IsWholeBelow;
    match m.value {
      case Num(Finite(text)) => NaturalsExactly(text);
      case _ =>
    }
  }

  /* ----- Bindings ----- */

  predicate NumberFits(n: int) {
    1 <= n < 0x20_0000_0000_0000
  }

  /** A binding is accepted exactly when its numbers are positive and below two to the 53 and its texts fit. */
  lemma BindingsExactly(b: Binding)
    ensures BindingBytes(b).Some? <==>
            match b
            case Field(purpose, owner, table, row, column, n) =>
              TextFits(purpose) && TextFits(owner) && TextFits(table) && TextFits(row) && TextFits(column) && NumberFits(n)
            case Object(kind, owner, id, n, k) => TextFits(kind) && TextFits(owner) && TextFits(id) && NumberFits(n) && NumberFits(k)
            case AccountKey(owner, n) => TextFits(owner) && NumberFits(n)
            case VaultPassphrase(owner, n) => TextFits(owner) && NumberFits(n)
            case VaultRecovery(owner, n) => TextFits(owner) && NumberFits(n)
            case VaultSession(owner, session) => TextFits(owner) && TextFits(session)
            case VaultItem(owner, item) => TextFits(owner) && TextFits(item)
            case VaultGrant(owner, grant, task) => TextFits(owner) && TextFits(grant) && TextFits(task)
  {
    hide BindingBytes, WellFormed;
    BindingAccepted(b);
    forall t: Text
      ensures IsFieldValue(C.Str(t)) <==> TextFits(t)
    {
    }
  }

  predicate Says(e: Entry, name: string, word: string) {
    e.key == Ascii(name) && e.value == JsonString(Ascii(word))
  }

  predicate Holds(e: Entry, name: string, text: Text) {
    e.key == Ascii(name) && e.value == JsonString(text)
  }

  predicate Counts(e: Entry, name: string, n: int) {
    n >= 0 && e.key == Ascii(name) && e.value == JsonNumber(Figures(n))
  }

  /** The members of the JSON object that a binding is. */
  predicate IsToldBy(b: Binding, e: Entry) {
    match b
    case Field(purpose, owner, table, row, column, n) =>
      || Says(e, "f", "sym1") || Holds(e, "p", purpose) || Holds(e, "o", owner) || Holds(e, "t", table) || Holds(e, "i", row)
      || Holds(e, "c", column) || Counts(e, "k", n)
    case Object(kind, owner, id, n, k) =>
      || Says(e, "f", "symo1") || Holds(e, "p", kind) || Holds(e, "o", owner) || Holds(e, "i", id) || Counts(e, "v", n)
      || Counts(e, "k", k)
    case AccountKey(owner, n) => Says(e, "f", "symk1") || Says(e, "p", "account-key") || Holds(e, "o", owner) || Counts(e, "kv", n)
    case VaultPassphrase(owner, n) => Says(e, "f", "symk1") || Says(e, "p", "vault-pass") || Holds(e, "o", owner) || Counts(e, "vv", n)
    case VaultRecovery(owner, n) =>
      Says(e, "f", "symk1") || Says(e, "p", "vault-recovery") || Holds(e, "o", owner) || Counts(e, "rk", n)
    case VaultSession(owner, session) =>
      Says(e, "f", "symk1") || Says(e, "p", "vault-session") || Holds(e, "o", owner) || Holds(e, "s", session)
    case VaultItem(owner, item) => Says(e, "f", "sym1") || Says(e, "p", "vault-item") || Holds(e, "o", owner) || Holds(e, "i", item)
    case VaultGrant(owner, grant, task) =>
      || Says(e, "f", "sym1") || Says(e, "p", "vault-grant") || Holds(e, "o", owner) || Holds(e, "g", grant) || Holds(e, "t", task)
  }

  /* ----- The object a binding is ----- */

  lemma NamesAre()
    ensures KEY_F == Ascii("f") && KEY_P == Ascii("p") && KEY_C == Ascii("c") && KEY_G == Ascii("g") && KEY_I == Ascii("i")
    ensures KEY_K == Ascii("k") && KEY_KV == Ascii("kv") && KEY_O == Ascii("o") && KEY_RK == Ascii("rk") && KEY_S == Ascii("s")
    ensures KEY_T == Ascii("t") && KEY_V == Ascii("v") && KEY_VV == Ascii("vv")
  {
  }

  lemma PurposesAre()
    ensures ACCOUNT_KEY == Ascii("account-key") && VAULT_PASS == Ascii("vault-pass") && VAULT_RECOVERY == Ascii("vault-recovery")
    ensures VAULT_SESSION == Ascii("vault-session") && VAULT_ITEM == Ascii("vault-item") && VAULT_GRANT == Ascii("vault-grant")
  {
  }

  /** The JSON value of a field. */
  ghost predicate IsJsonOf(j: Json, v: C.Value) {
    || (v.Str? && j == JsonString(v.text))
    || (v.Num? && v.number.Finite? && j == JsonNumber(v.number.text))
  }

  lemma MeansField(j: Json, v: C.Value)
    requires v.Str? || (v.Num? && v.number.Finite?)
    ensures Means(j, v) <==> IsJsonOf(j, v)
  {
  }

  /** The entry is this field. */
  ghost predicate Matches(e: Entry, m: C.Member) {
    m.key == e.key && IsJsonOf(e.value, m.value)
  }

  lemma SaysMeans(e: Entry, name: string, key: Text, word: string, text: Text)
    requires key == Ascii(name) && text == Ascii(word)
    ensures Says(e, name, word) <==> Matches(e, C.Member(key, C.Str(text)))
  {
  }

  lemma HoldsMeans(e: Entry, name: string, key: Text, text: Text)
    requires key == Ascii(name)
    ensures Holds(e, name, text) <==> Matches(e, C.Member(key, C.Str(text)))
  {
  }

  lemma CountsMeans(e: Entry, name: string, key: Text, n: int)
    requires key == Ascii(name) && IsVersion(n)
    ensures Counts(e, name, n) <==> Matches(e, C.Member(key, Version(n)))
  {
    FiguresAre(n);
  }

  ghost predicate IsFieldOf(b: Binding, e: Entry)
    requires VersionsOk(b)
  {
    exists m :: m in Fields(b) && Matches(e, m)
  }

  /** An entry is told by an envelope's binding exactly when it is one of its fields. */
  lemma FieldIsTold(b: Binding, e: Entry)
    requires VersionsOk(b) && b.Field?
    ensures IsToldBy(b, e) <==> IsFieldOf(b, e)
  {
    hide Ascii, Matches, Says, Holds, Counts, Version;
    FormatsAre();
    NamesAre();
    SaysMeans(e, "f", KEY_F, "sym1", FIELD_FORMAT);
    HoldsMeans(e, "p", KEY_P, b.purpose);
    HoldsMeans(e, "o", KEY_O, b.owner);
    HoldsMeans(e, "t", KEY_T, b.table);
    HoldsMeans(e, "i", KEY_I, b.row);
    HoldsMeans(e, "c", KEY_C, b.column);
    CountsMeans(e, "k", KEY_K, b.keyVersion);
    hide KEY_F, KEY_P, KEY_O, KEY_T, KEY_I, KEY_C, KEY_K, FIELD_FORMAT;
  }

  lemma ObjectIsTold(b: Binding, e: Entry)
    requires VersionsOk(b) && b.Object?
    ensures IsToldBy(b, e) <==> IsFieldOf(b, e)
  {
    hide Ascii, Matches, Says, Holds, Counts, Version;
    FormatsAre();
    NamesAre();
    PurposesAre();
    SaysMeans(e, "f", KEY_F, "symo1", OBJECT_FORMAT);
    HoldsMeans(e, "p", KEY_P, b.kind);
    HoldsMeans(e, "o", KEY_O, b.owner);
    HoldsMeans(e, "i", KEY_I, b.id);
    CountsMeans(e, "v", KEY_V, b.formatVersion);
    CountsMeans(e, "k", KEY_K, b.keyVersion);
  }

  lemma AccountKeyIsTold(b: Binding, e: Entry)
    requires VersionsOk(b) && b.AccountKey?
    ensures IsToldBy(b, e) <==> IsFieldOf(b, e)
  {
    hide Ascii, Matches, Says, Holds, Counts, Version;
    FormatsAre();
    NamesAre();
    PurposesAre();
    SaysMeans(e, "f", KEY_F, "symk1", KEY_WRAP_FORMAT);
    SaysMeans(e, "p", KEY_P, "account-key", ACCOUNT_KEY);
    HoldsMeans(e, "o", KEY_O, b.owner);
    CountsMeans(e, "kv", KEY_KV, b.kekVersion);
  }

  lemma PassphraseIsTold(b: Binding, e: Entry)
    requires VersionsOk(b) && b.VaultPassphrase?
    ensures IsToldBy(b, e) <==> IsFieldOf(b, e)
  {
    hide Ascii, Matches, Says, Holds, Counts, Version;
    FormatsAre();
    NamesAre();
    PurposesAre();
    SaysMeans(e, "f", KEY_F, "symk1", KEY_WRAP_FORMAT);
    SaysMeans(e, "p", KEY_P, "vault-pass", VAULT_PASS);
    HoldsMeans(e, "o", KEY_O, b.owner);
    CountsMeans(e, "vv", KEY_VV, b.vaultVersion);
  }

  lemma RecoveryIsTold(b: Binding, e: Entry)
    requires VersionsOk(b) && b.VaultRecovery?
    ensures IsToldBy(b, e) <==> IsFieldOf(b, e)
  {
    hide Ascii, Matches, Says, Holds, Counts, Version;
    FormatsAre();
    NamesAre();
    PurposesAre();
    SaysMeans(e, "f", KEY_F, "symk1", KEY_WRAP_FORMAT);
    SaysMeans(e, "p", KEY_P, "vault-recovery", VAULT_RECOVERY);
    HoldsMeans(e, "o", KEY_O, b.owner);
    CountsMeans(e, "rk", KEY_RK, b.recoveryKeyVersion);
  }

  lemma SessionIsTold(b: Binding, e: Entry)
    requires VersionsOk(b) && b.VaultSession?
    ensures IsToldBy(b, e) <==> IsFieldOf(b, e)
  {
    hide Ascii, Matches, Says, Holds, Counts, Version;
    FormatsAre();
    NamesAre();
    PurposesAre();
    SaysMeans(e, "f", KEY_F, "symk1", KEY_WRAP_FORMAT);
    SaysMeans(e, "p", KEY_P, "vault-session", VAULT_SESSION);
    HoldsMeans(e, "o", KEY_O, b.owner);
    HoldsMeans(e, "s", KEY_S, b.session);
  }

  lemma ItemIsTold(b: Binding, e: Entry)
    requires VersionsOk(b) && b.VaultItem?
    ensures IsToldBy(b, e) <==> IsFieldOf(b, e)
  {
    hide Ascii, Matches, Says, Holds, Counts, Version;
    FormatsAre();
    NamesAre();
    PurposesAre();
    SaysMeans(e, "f", KEY_F, "sym1", FIELD_FORMAT);
    SaysMeans(e, "p", KEY_P, "vault-item", VAULT_ITEM);
    HoldsMeans(e, "o", KEY_O, b.owner);
    HoldsMeans(e, "i", KEY_I, b.item);
  }

  lemma GrantIsTold(b: Binding, e: Entry)
    requires VersionsOk(b) && b.VaultGrant?
    ensures IsToldBy(b, e) <==> IsFieldOf(b, e)
  {
    hide Ascii, Matches, Says, Holds, Counts, Version;
    FormatsAre();
    NamesAre();
    PurposesAre();
    SaysMeans(e, "f", KEY_F, "sym1", FIELD_FORMAT);
    SaysMeans(e, "p", KEY_P, "vault-grant", VAULT_GRANT);
    HoldsMeans(e, "o", KEY_O, b.owner);
    HoldsMeans(e, "g", KEY_G, b.grant);
    HoldsMeans(e, "t", KEY_T, b.task);
  }

  lemma ToldIsField(b: Binding, e: Entry)
    requires VersionsOk(b)
    ensures IsToldBy(b, e) <==> IsFieldOf(b, e)
  {
    hide IsToldBy, IsFieldOf;
    match b {
      case Field(_, _, _, _, _, _) => FieldIsTold(b, e);
      case Object(_, _, _, _, _) => ObjectIsTold(b, e);
      case AccountKey(_, _) => AccountKeyIsTold(b, e);
      case VaultPassphrase(_, _) => PassphraseIsTold(b, e);
      case VaultRecovery(_, _) => RecoveryIsTold(b, e);
      case VaultSession(_, _) => SessionIsTold(b, e);
      case VaultItem(_, _) => ItemIsTold(b, e);
      case VaultGrant(_, _, _) => GrantIsTold(b, e);
    }
  }

  /** Every field is a string or a number. */
  predicate AreValues(members: seq<C.Member>) {
    forall m :: m in members ==> m.value.Str? || (m.value.Num? && m.value.number.Finite?)
  }

  lemma EntryIsField(members: seq<C.Member>, es: seq<Entry>, k: nat) returns (i: nat)
    requires Means(JsonObject(es), C.Obj(members)) && AreValues(members) && k < |es|
    ensures i < |members| && Matches(es[k], members[i])
  {
    var j := JsonObject(es);
    assert IsEntryOf(es[k].key, j, k, members);
    hide Means, IsJsonOf;
    i :| 0 <= i < |members| && members[i].key == es[k].key && Means(j.entries[k].value, members[i].value);
    assert members[i] in members;
    MeansField(es[k].value, members[i].value);
  }

  lemma FieldIsEntry(members: seq<C.Member>, es: seq<Entry>, i: nat) returns (k: nat)
    requires Means(JsonObject(es), C.Obj(members)) && AreValues(members) && i < |members|
    ensures k < |es| && es[k].key == members[i].key
  {
    assert members[i] in members;
    k :| 0 <= k < |es| && es[k].key == members[i].key;
  }

  /** The entries of the object that some fields mean are exactly these fields. */
  lemma EntriesAreFields(members: seq<C.Member>, es: seq<Entry>, e: Entry)
    requires C.DistinctKeys(members) && Means(JsonObject(es), C.Obj(members)) && AreValues(members)
    ensures e in es <==> exists m :: m in members && Matches(e, m)
  {
    hide IsJsonOf, Means, AreValues;
    if e in es {
      var k :| 0 <= k < |es| && es[k] == e;
      var i := EntryIsField(members, es, k);
      assert members[i] in members;
    }
    if m :| m in members && Matches(e, m) {
      var i :| 0 <= i < |members| && members[i] == m;
      var k := FieldIsEntry(members, es, i);
      var n := EntryIsField(members, es, k);
      OneJson(e.value, es[k].value, m.value);
    }
  }

  lemma OneJson(a: Json, b: Json, v: C.Value)
    ensures IsJsonOf(a, v) && IsJsonOf(b, v) ==> a == b
  {
  }

  /**
   * The bytes of a binding are the UTF-8 of a JSON text that reads as an object with exactly the members of its
   * kind, each with the part of the binding it is named for, in rising order of their names.
   */
  lemma BindingReads(b: Binding) returns (text: Text, es: seq<Entry>)
    requires BindingBytes(b).Some?
    ensures BindingBytes(b) == Some(Utf8.Bytes(text)) && Parse(text) == Some(JsonObject(es))
    ensures forall e :: e in es <==> IsToldBy(b, e)
    ensures forall i, k :: 0 <= i < k < |es| ==> Precedes(es[i].key, es[k].key)
  {
    hide IsToldBy, Fields, C.Encode, Matches, Parse;
    var v := C.Obj(Fields(b));
    FieldsDistinct(b);
    text := C.Canonical(v).value;
    var j := CanonicalReadsBack(v);
    es := j.entries;
    FieldsAreValues(b);
    forall e: Entry
      ensures e in es <==> IsToldBy(b, e)
    {
      EntriesAreFields(Fields(b), es, e);
      ToldIsField(b, e);
    }
  }

  lemma FieldsAreValues(b: Binding)
    requires VersionsOk(b)
    ensures AreValues(Fields(b))
  {
    hide Fields, DigitText;
    forall m | m in Fields(b)
      ensures m.value.Str? || (m.value.Num? && m.value.number.Finite?)
    {
      FieldIsValue(b, m);
    }
  }

  lemma FieldIsValue(b: Binding, m: C.Member)
    requires VersionsOk(b) && m in Fields(b)
    ensures m.value.Str? || (m.value.Num? && m.value.number.Finite?)
  {
    hide KEY_F, KEY_P, KEY_O, KEY_T, KEY_I, KEY_C, KEY_K, KEY_V, KEY_KV, KEY_VV, KEY_RK, KEY_S, KEY_G, Digits, FIELD_FORMAT,
         OBJECT_FORMAT, KEY_WRAP_FORMAT, ACCOUNT_KEY, VAULT_PASS, VAULT_RECOVERY, VAULT_SESSION, VAULT_ITEM, VAULT_GRANT;
  }
}
