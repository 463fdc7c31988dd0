/** packages/crypto/src/aad.ts: the eight kinds of bindings never share bytes. */
module AadBindings {
  import opened Wrappers
  import opened Utf16
  import opened CanonicalJson
  import opened Aad
  import Decimal
  import Utf8
  import CanonicalBytes

  /** What an envelope or a key wrap is bound to. */
  datatype Binding =
    | Field(purpose: Text, owner: Text, table: Text, row: Text, column: Text, keyVersion: int)
    | Object(kind: Text, owner: Text, id: Text, formatVersion: int, keyVersion: int)
    | AccountKey(owner: Text, kekVersion: int)
    | VaultPassphrase(owner: Text, vaultVersion: int)
    | VaultRecovery(owner: Text, recoveryKeyVersion: int)
    | VaultSession(owner: Text, session: Text)
    | VaultItem(owner: Text, item: Text)
    | VaultGrant(owner: Text, grant: Text, task: Text)

  const KEY_C: Text := [0x63]
  const KEY_G: Text := [0x67]
  const KEY_I: Text := [0x69]
  const KEY_K: Text := [0x6B]
  const KEY_KV: Text := [0x6B, 0x76]
  const KEY_O: Text := [0x6F]
  const KEY_RK: Text := [0x72, 0x6B]
  const KEY_S: Text := [0x73]
  const KEY_T: Text := [0x74]
  const KEY_V: Text := [0x76]
  const KEY_VV: Text := [0x76, 0x76]

  /** "account-key", "vault-pass", "vault-recovery", "vault-session", "vault-item" and "vault-grant". */
  const ACCOUNT_KEY: Text := [0x61, 0x63, 0x63, 0x6F, 0x75, 0x6E, 0x74, 0x2D, 0x6B, 0x65, 0x79]
  const VAULT_PASS: Text := [0x76, 0x61, 0x75, 0x6C, 0x74, 0x2D, 0x70, 0x61, 0x73, 0x73]
  const VAULT_RECOVERY: Text :=
    [0x76, 0x61, 0x75, 0x6C, 0x74, 0x2D, 0x72, 0x65, 0x63, 0x6F, 0x76, 0x65, 0x72, 0x79]
  const VAULT_SESSION: Text := [0x76, 0x61, 0x75, 0x6C, 0x74, 0x2D, 0x73, 0x65, 0x73, 0x73, 0x69, 0x6F, 0x6E]
  const VAULT_ITEM: Text := [0x76, 0x61, 0x75, 0x6C, 0x74, 0x2D, 0x69, 0x74, 0x65, 0x6D]
  const VAULT_GRANT: Text := [0x76, 0x61, 0x75, 0x6C, 0x74, 0x2D, 0x67, 0x72, 0x61, 0x6E, 0x74]

  /* ----- Version numbers ----- */

  predicate IsVersion(n: int) {
    1 <= n <= MAX_SAFE_INTEGER
  }

  function DigitText(n: nat): (text: Text) {
    var s := Decimal.Dec(n);
    seq(|s|, i requires 0 <= i < |s| => s[i] as int)
  }

  lemma {:induction false} FirstDigit(n: nat)
    ensures Decimal.Dec(n)[0] == '0' <==> n == 0
    ensures n == 0 ==> |Decimal.Dec(n)| == 1
  {
    if n >= 10 {
      FirstDigit(n / 10);
    }
  }

  lemma {:induction false} AllDigitsEnd(text: Text, i: nat)
    requires i <= |text| && forall k :: i <= k < |text| ==> IsDigitUnit(text[k])
    ensures DigitsEnd(text, i) == |text|
    decreases |text| - i
  {
    if i < |text| {
      AllDigitsEnd(text, i + 1);
    }
  }

  lemma DigitsAreNumber(n: nat)
    ensures IsNumberText(DigitText(n))
  {
    hide DigitsEnd;
    FirstDigit(n);
    AllDigitsEnd(DigitText(n), 0);
  }

  function Digits(n: nat): (text: NumberText) {
    DigitsAreNumber(n);
    DigitText(n)
  }

  lemma DigitsTell(a: nat, b: nat)
    requires Digits(a) == Digits(b)
    ensures a == b
  {
    var s, t := Decimal.Dec(a), Decimal.Dec(b);
    assert |s| == |Digits(a)| == |t|;
    forall i | 0 <= i < |s|
      ensures s[i] == t[i]
    {
      assert Digits(a)[i] == Digits(b)[i];
    }
    assert s == t;
    Decimal.DecInjective(a, b);
  }

  lemma {:induction false} DigitsAreSafe(n: nat)
    ensures IsDigits(Digits(n)) && Numeral(Digits(n)) == n
    ensures Digits(n)[0] == DIGIT_ZERO <==> n == 0
    ensures n == 0 ==> |Digits(n)| == 1
  {
    if n < 10 {
      assert Digits(n)[..0] == [];
    } else {
      DigitsAreSafe(n / 10);
      var front, all := Digits(n / 10), Digits(n);
      assert all[..|all| - 1] == front;
    }
  }

  function Version(n: int): Value
    requires IsVersion(n)
  {
    Num(Finite(Digits(n)))
  }

  lemma VersionTells(a: int, b: int)
    requires IsVersion(a) && IsVersion(b) && Version(a) == Version(b)
    ensures a == b
  {
    DigitsTell(a, b);
  }

  lemma VersionAccepted(n: int)
    requires IsVersion(n)
    ensures IsFieldValue(Version(n))
  {
    DigitsAreSafe(n);
  }

  /* ----- The builders ----- */

  predicate VersionsOk(b: Binding) {
    match b
    case Field(_, _, _, _, _, k) => IsVersion(k)
    case Object(_, _, _, v, k) => IsVersion(v) && IsVersion(k)
    case AccountKey(_, kv) => IsVersion(kv)
    case VaultPassphrase(_, vv) => IsVersion(vv)
    case VaultRecovery(_, rk) => IsVersion(rk)
    case _ => true
  }

  function Fields(b: Binding): seq<Member>
    requires VersionsOk(b)
  {
    match b
    case Field(p, o, t, i, c, k) =>
      [Member(KEY_F, Str(FIELD_FORMAT)), Member(KEY_P, Str(p)), Member(KEY_O, Str(o)), Member(KEY_T, Str(t)),
       Member(KEY_I, Str(i)), Member(KEY_C, Str(c)), Member(KEY_K, Version(k))]
    case Object(p, o, i, v, k) =>
      [Member(KEY_F, Str(OBJECT_FORMAT)), Member(KEY_P, Str(p)), Member(KEY_O, Str(o)), Member(KEY_I, Str(i)),
       Member(KEY_V, Version(v)), Member(KEY_K, Version(k))]
    case AccountKey(o, kv) =>
      [Member(KEY_F, Str(KEY_WRAP_FORMAT)), Member(KEY_P, Str(ACCOUNT_KEY)), Member(KEY_O, Str(o)),
       Member(KEY_KV, Version(kv))]
    case VaultPassphrase(o, vv) =>
      [Member(KEY_F, Str(KEY_WRAP_FORMAT)), Member(KEY_P, Str(VAULT_PASS)), Member(KEY_O, Str(o)),
       Member(KEY_VV, Version(vv))]
    case VaultRecovery(o, rk) =>
      [Member(KEY_F, Str(KEY_WRAP_FORMAT)), Member(KEY_P, Str(VAULT_RECOVERY)), Member(KEY_O, Str(o)),
       Member(KEY_RK, Version(rk))]
    case VaultSession(o, s) =>
      [Member(KEY_F, Str(KEY_WRAP_FORMAT)), Member(KEY_P, Str(VAULT_SESSION)), Member(KEY_O, Str(o)),
       Member(KEY_S, Str(s))]
    case VaultItem(o, i) =>
      [Member(KEY_F, Str(FIELD_FORMAT)), Member(KEY_P, Str(VAULT_ITEM)), Member(KEY_O, Str(o)),
       Member(KEY_I, Str(i))]
    case VaultGrant(o, g, t) =>
      [Member(KEY_F, Str(FIELD_FORMAT)), Member(KEY_P, Str(VAULT_GRANT)), Member(KEY_O, Str(o)),
       Member(KEY_G, Str(g)), Member(KEY_T, Str(t))]
  }

  function BindingBytes(b: Binding): Option<seq<Utf8.Byte>> {
    if VersionsOk(b) then AadBytes(Obj(Fields(b))) else None
  }

  /** The names in one or two letters, as a number. */
  function Code(name: Text): int {
    if |name| == 1 then name[0] as int
    else if |name| == 2 then 0x10000 * name[0] as int + name[1] as int
    else 0
  }

  lemma NameCodes()
    ensures Code(KEY_F) == 0x66 && Code(KEY_P) == 0x70 && Code(KEY_C) == 0x63 && Code(KEY_G) == 0x67
    ensures Code(KEY_I) == 0x69 && Code(KEY_K) == 0x6B && Code(KEY_KV) == 0x6B0076 && Code(KEY_O) == 0x6F
    ensures Code(KEY_RK) == 0x72006B && Code(KEY_S) == 0x73 && Code(KEY_T) == 0x74 && Code(KEY_V) == 0x76
    ensures Code(KEY_VV) == 0x760076
  {
  }

  lemma FieldsDistinct(b: Binding)
    requires VersionsOk(b)
    ensures DistinctKeys(Fields(b)) && WellKeyed(Obj(Fields(b)))
  {
    hide Code, Version;
    NameCodes();
    var fields := Fields(b);
    forall i, j | 0 <= i < j < |fields|
      ensures fields[i].key != fields[j].key
    {
      assert Code(fields[i].key) != Code(fields[j].key);
    }
    forall i | 0 <= i < |fields|
      ensures WellKeyed(fields[i].value)
    {
      VersionsAreNumbers(b, fields[i]);
    }
  }

  lemma VersionsAreNumbers(b: Binding, m: Member)
    requires VersionsOk(b) && m in Fields(b)
    ensures m.value.Str? || m.value.Num?
  {
  }

  /** The value of the field whose name has this code. */
  function At(b: Binding, code: int): Option<Value>
    requires VersionsOk(b)
  {
    if code == 0x6F then Some(Str(b.owner))
    else
      match b
      case Field(p, o, t, i, c, k) =>
        if code == 0x66 then Some(Str(FIELD_FORMAT)) else if code == 0x70 then Some(Str(p))
        else if code == 0x74 then Some(Str(t)) else if code == 0x69 then Some(Str(i))
        else if code == 0x63 then Some(Str(c)) else if code == 0x6B then Some(Version(k)) else None
      case Object(p, o, i, v, k) =>
        if code == 0x66 then Some(Str(OBJECT_FORMAT)) else if code == 0x70 then Some(Str(p))
        else if code == 0x69 then Some(Str(i))
        else if code == 0x76 then Some(Version(v)) else if code == 0x6B then Some(Version(k)) else None
      case AccountKey(o, kv) =>
        if code == 0x66 then Some(Str(KEY_WRAP_FORMAT)) else if code == 0x70 then Some(Str(ACCOUNT_KEY))
        else if code == 0x6B0076 then Some(Version(kv)) else None
      case VaultPassphrase(o, vv) =>
        if code == 0x66 then Some(Str(KEY_WRAP_FORMAT)) else if code == 0x70 then Some(Str(VAULT_PASS))
        else if code == 0x760076 then Some(Version(vv)) else None
      case VaultRecovery(o, rk) =>
        if code == 0x66 then Some(Str(KEY_WRAP_FORMAT)) else if code == 0x70 then Some(Str(VAULT_RECOVERY))
        else if code == 0x72006B then Some(Version(rk)) else None
      case VaultSession(o, s) =>
        if code == 0x66 then Some(Str(KEY_WRAP_FORMAT)) else if code == 0x70 then Some(Str(VAULT_SESSION))
        else if code == 0x73 then Some(Str(s)) else None
      case VaultItem(o, i) =>
        if code == 0x66 then Some(Str(FIELD_FORMAT)) else if code == 0x70 then Some(Str(VAULT_ITEM))
        else if code == 0x69 then Some(Str(i)) else None
      case VaultGrant(o, g, t) =>
        if code == 0x66 then Some(Str(FIELD_FORMAT)) else if code == 0x70 then Some(Str(VAULT_GRANT))
        else if code == 0x67 then Some(Str(g)) else if code == 0x74 then Some(Str(t)) else None
  }

  lemma MemberAt(b: Binding, m: Member)
    requires VersionsOk(b) && m in Fields(b)
    ensures At(b, Code(m.key)) == Some(m.value)
  {
    hide Code, Version;
    NameCodes();
  }

  lemma AtMember(b: Binding, code: int)
    requires VersionsOk(b) && At(b, code).Some?
    ensures exists m :: m in Fields(b) && Code(m.key) == code && m.value == At(b, code).value
  {
    hide Code, Version;
    NameCodes();
    var fields := Fields(b);
    assert exists i :: 0 <= i < |fields| && Code(fields[i].key) == code && fields[i].value == At(b, code).value by {
      assert |fields| >= 4 && Code(fields[0].key) == 0x66 && Code(fields[1].key) == 0x70 && Code(fields[2].key) == 0x6F;
      assert Code(fields[3].key) == Code(fields[3].key);
      assert |fields| > 4 ==> Code(fields[4].key) == Code(fields[4].key);
      assert |fields| > 5 ==> Code(fields[5].key) == Code(fields[5].key);
      assert |fields| > 6 ==> Code(fields[6].key) == Code(fields[6].key);
    }
    var i :| 0 <= i < |fields| && Code(fields[i].key) == code && fields[i].value == At(b, code).value;
    assert fields[i] in fields;
  }

  lemma SameAt(b: Binding, c: Binding, code: int)
    requires VersionsOk(b) && VersionsOk(c) && SameFields(Obj(Fields(b)), Obj(Fields(c)))
    requires At(b, code).Some?
    ensures At(b, code) == At(c, code)
  {
    hide Code, Version, At, Fields;
    AtMember(b, code);
    var m :| m in Fields(b) && Code(m.key) == code && m.value == At(b, code).value;
    assert m in Obj(Fields(b)).members;
    MemberAt(c, m);
  }

  /** The code of a name that only this kind of binding has, except for an item. */
  function Mark(b: Binding): int {
    match b
    case Field(_, _, _, _, _, _) => 0x63
    case Object(_, _, _, _, _) => 0x76
    case AccountKey(_, _) => 0x6B0076
    case VaultPassphrase(_, _) => 0x760076
    case VaultRecovery(_, _) => 0x72006B
    case VaultSession(_, _) => 0x73
    case VaultItem(_, _) => 0x69
    case VaultGrant(_, _, _) => 0x67
  }

  lemma SameKind(b: Binding, c: Binding)
    requires VersionsOk(b) && VersionsOk(c)
    requires At(b, Mark(b)) == At(c, Mark(b)) && At(b, Mark(c)) == At(c, Mark(c))
    ensures Mark(b) == Mark(c)
  {
    hide Version;
  }

  lemma SameBinding(b: Binding, c: Binding)
    requires VersionsOk(b) && VersionsOk(c) && Mark(b) == Mark(c)
    requires forall code :: At(b, code) == At(c, code)
    ensures b == c
  {
    hide Version;
    assert At(b, 0x6F) == At(c, 0x6F);
    assert At(b, 0x70) == At(c, 0x70);
    assert At(b, 0x74) == At(c, 0x74);
    assert At(b, 0x69) == At(c, 0x69);
    assert At(b, 0x6B) == At(c, 0x6B);
    assert At(b, Mark(b)) == At(c, Mark(b));
    match b {
      case Field(_, _, _, _, _, k) => VersionTells(k, c.keyVersion);
      case Object(_, _, _, v, k) =>
        VersionTells(k, c.keyVersion);
        VersionTells(v, c.formatVersion);
      case AccountKey(_, kv) => VersionTells(kv, c.kekVersion);
      case VaultPassphrase(_, vv) => VersionTells(vv, c.vaultVersion);
      case VaultRecovery(_, rk) => VersionTells(rk, c.recoveryKeyVersion);
      case _ =>
    }
  }

  /** Every envelope and key wrap is bound to its own kind and context: equal bytes come from equal bindings. */
  lemma BindingsNeverShareBytes(b: Binding, c: Binding)
    requires BindingBytes(b).Some? && BindingBytes(b) == BindingBytes(c)
    ensures b == c
  {
    hide At, Fields, IsAad, Mark;
    FieldsDistinct(b);
    FieldsDistinct(c);
    AadIsUnique(Obj(Fields(b)), Obj(Fields(c)));
    forall code
      ensures At(b, code) == At(c, code)
    {
      if At(b, code).Some? {
        SameAt(b, c, code);
      } else if At(c, code).Some? {
        SameAt(c, b, code);
      }
    }
    SameKind(b, c);
    SameBinding(b, c);
  }

  /** The strings of a binding. */
  function Texts(b: Binding): set<Text> {
    match b
    case Field(p, o, t, i, c, _) => {p, o, t, i, c}
    case Object(p, o, i, _, _) => {p, o, i}
    case AccountKey(o, _) => {o}
    case VaultPassphrase(o, _) => {o}
    case VaultRecovery(o, _) => {o}
    case VaultSession(o, s) => {o, s}
    case VaultItem(o, i) => {o, i}
    case VaultGrant(o, g, t) => {o, g, t}
  }

  lemma FormatAndPurpose(b: Binding)
    requires VersionsOk(b)
    ensures Get(Fields(b), KEY_F) in {Str(FIELD_FORMAT), Str(OBJECT_FORMAT), Str(KEY_WRAP_FORMAT)}
    ensures Get(Fields(b), KEY_P).Str?
  {
    hide Code, Version;
    NameCodes();
    var fields := Fields(b);
    assert fields[0].key == KEY_F && fields[1].key == KEY_P;
    assert Get(fields, KEY_P) == Get(fields[1..], KEY_P) == fields[1].value;
  }

  lemma NamesAccepted(b: Binding, m: Member)
    requires VersionsOk(b) && m in Fields(b)
    ensures IsFieldName(m.key)
  {
    hide Version;
  }

  lemma FixedTextsAccepted(text: Text)
    requires text in {FIELD_FORMAT, OBJECT_FORMAT, KEY_WRAP_FORMAT, ACCOUNT_KEY, VAULT_PASS, VAULT_RECOVERY,
                      VAULT_SESSION, VAULT_ITEM, VAULT_GRANT}
    ensures IsFieldValue(Str(text))
  {
    CanonicalBytes.PlainWellFormed(text);
  }

  /** Every field is a version, a fixed text or one of the binding's strings. */
  lemma ValueOrigin(b: Binding, m: Member)
    requires VersionsOk(b) && m in Fields(b)
    ensures m.value.Str? || (exists n :: IsVersion(n) && m.value == Version(n))
    ensures m.value.Str? ==>
              || m.value.text in {FIELD_FORMAT, OBJECT_FORMAT, KEY_WRAP_FORMAT, ACCOUNT_KEY, VAULT_PASS, VAULT_RECOVERY,
                                  VAULT_SESSION, VAULT_ITEM, VAULT_GRANT}
              || m.value.text in Texts(b)
  {
    hide Digits, Fields, Code;
    MemberAt(b, m);
    assert At(b, Code(m.key)) == Some(m.value);
  }

  lemma TextIsField(b: Binding, t: Text)
    requires VersionsOk(b) && t in Texts(b)
    ensures exists m :: m in Fields(b) && m.value == Str(t)
  {
    hide Version, Fields;
    var value := Str(t);
    var code :=
      if t == b.owner then 0x6F
      else if At(b, 0x70) == Some(value) then 0x70
      else if At(b, 0x74) == Some(value) then 0x74
      else if At(b, 0x69) == Some(value) then 0x69
      else if At(b, 0x63) == Some(value) then 0x63
      else if At(b, 0x73) == Some(value) then 0x73
      else 0x67;
    assert At(b, code) == Some(value);
    AtMember(b, code);
  }

  /** A binding has bytes exactly when its versions are positive safe integers and its strings are in bounds. */
  lemma BindingAccepted(b: Binding)
    ensures BindingBytes(b).Some? <==> VersionsOk(b) && forall t :: t in Texts(b) ==> IsFieldValue(Str(t))
  {
    hide Fields, Version, Texts, IsFieldValue, IsFieldName, Get;
    if VersionsOk(b) {
      FormatAndPurpose(b);
      if forall t :: t in Texts(b) ==> IsFieldValue(Str(t)) {
        forall m | m in Fields(b)
          ensures IsFieldName(m.key) && IsFieldValue(m.value)
        {
          NamesAccepted(b, m);
          FieldAccepted(b, m);
        }
        FieldsDistinct(b);
        AadIsUnique(Obj(Fields(b)), Obj(Fields(b)));
      }
      if BindingBytes(b).Some? {
        forall t | t in Texts(b)
          ensures IsFieldValue(Str(t))
        {
          TextIsField(b, t);
          var m :| m in Fields(b) && m.value == Str(t);
          assert m in Obj(Fields(b)).members;
        }
      }
    }
  }

  lemma FieldAccepted(b: Binding, m: Member)
    requires VersionsOk(b) && m in Fields(b) && forall t :: t in Texts(b) ==> IsFieldValue(Str(t))
    ensures IsFieldValue(m.value)
  {
    hide Fields, Version, Texts, IsFieldValue;
    ValueOrigin(b, m);
    if m.value.Str? {
      if m.value.text !in Texts(b) {
        FixedTextsAccepted(m.value.text);
      }
    } else {
      var n :| IsVersion(n) && m.value == Version(n);
      VersionAccepted(n);
    }
  }
}
