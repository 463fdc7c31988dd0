/** A reader of JSON texts, after sections 2 to 7 of RFC 8259. Texts are sequences of UTF-16 code units. */
module JsonText {
  import opened Wrappers
  import opened Utf16

  /** A number stays the text it was written as. */
  datatype Json =
    | JsonNull
    | JsonBool(b: bool)
    | JsonNumber(text: Text)
    | JsonString(text: Text)
    | JsonArray(items: seq<Json>)
    | JsonObject(entries: seq<Entry>)

  datatype Entry = Entry(key: Text, value: Json)

  datatype Read<T> = Read(value: T, rest: Text) | Malformed

  /* ----- Section 2: structural characters and white space ----- */

  function Unit(c: char): CodeUnit
    requires c as int < 0x80
  {
    c as int
  }

  predicate IsAscii(s: string) {
    forall i :: 0 <= i < |s| ==> s[i] as int < 0x80
  }

  function Units(s: string): Text
    requires IsAscii(s)
  {
    seq(|s|, i requires 0 <= i < |s| => Unit(s[i]))
  }

  predicate StartsWith(s: Text, c: char)
    requires c as int < 0x80
  {
    s != [] && s[0] == Unit(c)
  }

  function SkipSpace(s: Text): (r: Text)
    ensures |r| <= |s|
  {
    if s != [] && s[0] in {Unit(' '), Unit('\t'), Unit('\n'), Unit('\r')} then SkipSpace(s[1..]) else s
  }

  /* ----- Section 6: numbers ----- */

  predicate DigitAt(s: Text, i: nat) {
    i < |s| && Unit('0') <= s[i] <= Unit('9')
  }

  function PastDigits(s: Text, i: nat): (end: nat)
    requires i <= |s|
    ensures i <= end <= |s|
    decreases |s| - i
  {
    if DigitAt(s, i) then PastDigits(s, i + 1) else i
  }

  /** Zero, or digits that do not begin with zero. */
  function PastInt(s: Text, i: nat): (end: nat)
    requires i <= |s|
    ensures i <= end <= |s|
  {
    if i < |s| && s[i] == Unit('0') then i + 1 else PastDigits(s, i)
  }

  function PastFraction(s: Text, i: nat): (end: nat)
    requires i <= |s|
    ensures i <= end <= |s|
  {
    if i < |s| && s[i] == Unit('.') && DigitAt(s, i + 1) then PastDigits(s, i + 1) else i
  }

  function PastExponent(s: Text, i: nat): (end: nat)
    requires i <= |s|
    ensures i <= end <= |s|
  {
    if i < |s| && (s[i] == Unit('e') || s[i] == Unit('E')) then
      var digits := if i + 1 < |s| && (s[i + 1] == Unit('+') || s[i + 1] == Unit('-')) then i + 2 else i + 1;
      if DigitAt(s, digits) then PastDigits(s, digits) else i
    else i
  }

  function ReadNumber(s: Text): (r: Read<Json>)
    ensures r.Read? ==> |r.rest| < |s|
  {
    var begin := if StartsWith(s, '-') then 1 else 0;
    var whole := PastInt(s, begin);
    if whole == begin then Malformed
    else
      var end := PastExponent(s, PastFraction(s, whole));
      Read(JsonNumber(s[..end]), s[end..])
  }

  /* ----- Section 7: strings ----- */

  function HexOf(u: CodeUnit): Option<nat> {
    if Unit('0') <= u <= Unit('9') then Some(u - Unit('0'))
    else if Unit('a') <= u <= Unit('f') then Some(u - Unit('a') + 10)
    else if Unit('A') <= u <= Unit('F') then Some(u - Unit('A') + 10)
    else None
  }

  function ReadHex(s: Text): (r: Read<CodeUnit>)
    ensures r.Read? ==> |r.rest| < |s|
  {
    if |s| < 4 then Malformed
    else
      var (a, b, c, d) := (HexOf(s[0]), HexOf(s[1]), HexOf(s[2]), HexOf(s[3]));
      if a.None? || b.None? || c.None? || d.None? then Malformed
      else
        var n := ((a.value * 16 + b.value) * 16 + c.value) * 16 + d.value;
        if n < 0x1_0000 then Read(n, s[4..]) else Malformed
  }

  /** What the letter after a backslash stands for. */
  function Escaped(u: CodeUnit): Option<CodeUnit> {
    if u == Unit('"') || u == Unit('\\') || u == Unit('/') then Some(u)
    else if u == Unit('b') then Some(0x08)
    else if u == Unit('f') then Some(0x0C)
    else if u == Unit('n') then Some(0x0A)
    else if u == Unit('r') then Some(0x0D)
    else if u == Unit('t') then Some(0x09)
    else None
  }

  function ReadUnit(s: Text): (r: Read<CodeUnit>)
    requires s != []
    ensures r.Read? ==> |r.rest| < |s|
  {
    if s[0] != Unit('\\') then if s[0] < 0x20 then Malformed else Read(s[0], s[1..])
    else if |s| == 1 then Malformed
    else if s[1] == Unit('u') then ReadHex(s[2..])
    else if Escaped(s[1]).None? then Malformed
    else Read(Escaped(s[1]).value, s[2..])
  }

  /** The rest of a string after its opening quotation mark. */
  function ReadString(s: Text): (r: Read<Text>)
    ensures r.Read? ==> |r.rest| < |s|
    decreases |s|
  {
    if s == [] then Malformed
    else if StartsWith(s, '"') then Read([], s[1..])
    else
      var unit := ReadUnit(s);
      if unit.Malformed? then Malformed
      else
        var more := ReadString(unit.rest);
        if more.Malformed? then Malformed else Read([unit.value] + more.value, more.rest)
  }

  /* ----- Sections 3 to 5: values, objects and arrays ----- */

  function ReadLiteral(s: Text, word: string, value: Json): (r: Read<Json>)
    requires IsAscii(word) && word != ""
    ensures r.Read? ==> |r.rest| < |s|
  {
    if |word| <= |s| && s[..|word|] == Units(word) then Read(value, s[|word|..]) else Malformed
  }

  function ReadValue(s: Text): (r: Read<Json>)
    ensures r.Read? ==> |r.rest| < |s|
    decreases |s|, 2
  {
    var t := SkipSpace(s);
    if StartsWith(t, '{') then
      var entries := ReadObject(t[1..]);
      if entries.Malformed? then Malformed else Read(JsonObject(entries.value), entries.rest)
    else if StartsWith(t, '[') then
      var items := ReadArray(t[1..]);
      if items.Malformed? then Malformed else Read(JsonArray(items.value), items.rest)
    else if StartsWith(t, '"') then
      var text := ReadString(t[1..]);
      if text.Malformed? then Malformed else Read(JsonString(text.value), text.rest)
    else if StartsWith(t, 't') then ReadLiteral(t, "true", JsonBool(true))
    else if StartsWith(t, 'f') then ReadLiteral(t, "false", JsonBool(false))
    else if StartsWith(t, 'n') then ReadLiteral(t, "null", JsonNull)
    else ReadNumber(t)
  }

  /** The rest of an array after its opening bracket. */
  function ReadArray(s: Text): (r: Read<seq<Json>>)
    ensures r.Read? ==> |r.rest| < |s|
    decreases |s|, 4
  {
    var t := SkipSpace(s);
    if StartsWith(t, ']') then Read([], t[1..]) else ReadItems(s)
  }

  function ReadItems(s: Text): (r: Read<seq<Json>>)
    ensures r.Read? ==> |r.rest| < |s|
    decreases |s|, 3
  {
    var first := ReadValue(s);
    if first.Malformed? then Malformed
    else
      var t := SkipSpace(first.rest);
      if StartsWith(t, ']') then Read([first.value], t[1..])
      else if StartsWith(t, ',') then
        var more := ReadItems(t[1..]);
        if more.Malformed? then Malformed else Read([first.value] + more.value, more.rest)
      else Malformed
  }

  /** The rest of an object after its opening brace. */
  function ReadObject(s: Text): (r: Read<seq<Entry>>)
    ensures r.Read? ==> |r.rest| < |s|
    decreases |s|, 4
  {
    var t := SkipSpace(s);
    if StartsWith(t, '}') then Read([], t[1..]) else ReadEntries(s)
  }

  function ReadEntry(s: Text): (r: Read<Entry>)
    ensures r.Read? ==> |r.rest| < |s|
    decreases |s|, 1
  {
    var t := SkipSpace(s);
    if !StartsWith(t, '"') then Malformed
    else
      var key := ReadString(t[1..]);
      if key.Malformed? then Malformed
      else
        var u := SkipSpace(key.rest);
        if !StartsWith(u, ':') then Malformed
        else
          var value := ReadValue(u[1..]);
          if value.Malformed? then Malformed else Read(Entry(key.value, value.value), value.rest)
  }

  function ReadEntries(s: Text): (r: Read<seq<Entry>>)
    ensures r.Read? ==> |r.rest| < |s|
    decreases |s|, 3
  {
    var first := ReadEntry(s);
    if first.Malformed? then Malformed
    else
      var t := SkipSpace(first.rest);
      if StartsWith(t, '}') then Read([first.value], t[1..])
      else if StartsWith(t, ',') then
        var more := ReadEntries(t[1..]);
        if more.Malformed? then Malformed else Read([first.value] + more.value, more.rest)
      else Malformed
  }

  /** The value of a whole text, if it is one. */
  function Parse(s: Text): Option<Json> {
    var r := ReadValue(s);
    if r.Read? && SkipSpace(r.rest) == [] then Some(r.value) else None
  }
}
