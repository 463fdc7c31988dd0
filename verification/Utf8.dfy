/** The UTF-8 bytes of a string (section 3 of RFC 3629), as Buffer.from(text, "utf8") gives them. */
module Utf8 {
  import opened Utf16

  type Byte = b: int | 0 <= b < 0x100

  predicate StartsWithPair(text: Text) {
    |text| >= 2 && IsHighSurrogate(text[0]) && IsLowSurrogate(text[1])
  }

  /** How many units the first character takes. */
  function HeadLength(text: Text): (n: nat)
    requires text != []
    ensures 1 <= n <= |text|
  {
    if StartsWithPair(text) then 2 else 1
  }

  function UnitBytes(u: CodeUnit): seq<Byte> {
    if u < 0x80 then [u]
    else if u < 0x800 then [0xC0 + u / 0x40, 0x80 + u % 0x40]
    else [0xE0 + u / 0x1000, 0x80 + u / 0x40 % 0x40, 0x80 + u % 0x40]
  }

  function PairBytes(high: CodeUnit, low: CodeUnit): seq<Byte>
    requires IsHighSurrogate(high) && IsLowSurrogate(low)
  {
    var point := 0x10000 + (high - 0xD800) * 0x400 + (low - 0xDC00);
    [0xF0 + point / 0x40000, 0x80 + point / 0x1000 % 0x40, 0x80 + point / 0x40 % 0x40, 0x80 + point % 0x40]
  }

  /** The bytes of the first character; a lone surrogate is replaced. */
  function HeadBytes(text: Text): seq<Byte>
    requires text != []
  {
    if StartsWithPair(text) then PairBytes(text[0], text[1])
    else if IsHighSurrogate(text[0]) || IsLowSurrogate(text[0]) then [0xEF, 0xBF, 0xBD]
    else UnitBytes(text[0])
  }

  function Bytes(text: Text): seq<Byte> {
    if text == [] then [] else HeadBytes(text) + Bytes(text[HeadLength(text)..])
  }

  /** The code point a sequence of one to four bytes stands for, by the table of section 3 of RFC 3629. */
  function PointOf(bytes: seq<Byte>): int {
    if |bytes| == 1 then bytes[0]
    else if |bytes| == 2 then (bytes[0] as int % 0x20) * 0x40 + Low(bytes[1])
    else if |bytes| == 3 then (bytes[0] as int % 0x10) * 0x1000 + Low(bytes[1]) * 0x40 + Low(bytes[2])
    else if |bytes| == 4 then
      (bytes[0] as int % 8) * 0x40000 + Low(bytes[1]) * 0x1000 + Low(bytes[2]) * 0x40 + Low(bytes[3])
    else 0
  }

  /** The six low bits. */
  function Low(b: int): int {
    b % 0x40
  }

  /** The code point the text begins with (section 2.1 of RFC 2781); U+FFFD for a lone surrogate. */
  function HeadPoint(text: Text): int
    requires text != []
  {
    if StartsWithPair(text) then PairPoint(text[0], text[1])
    else if 0xD800 <= text[0] < 0xE000 then 0xFFFD
    else text[0]
  }

  function PairPoint(high: int, low: int): int {
    0x10000 + (high - 0xD800) * 0x400 + (low - 0xDC00)
  }

  predicate IsContinuation(b: Byte) {
    0x80 <= b < 0xC0
  }

  lemma UnitBytesMeanUnit(u: CodeUnit)
    ensures PointOf(UnitBytes(u)) == u
    ensures forall i :: 0 < i < |UnitBytes(u)| ==> IsContinuation(UnitBytes(u)[i])
  {
    if u >= 0x800 {
      assert u / 0x40 / 0x40 == u / 0x1000;
    }
  }

  lemma PairBytesMeanPair(high: CodeUnit, low: CodeUnit)
    requires IsHighSurrogate(high) && IsLowSurrogate(low)
    ensures PointOf(PairBytes(high, low)) == PairPoint(high, low) < 0x11_0000
    ensures forall i :: 0 < i < 4 ==> IsContinuation(PairBytes(high, low)[i])
  {
    var point, bytes := PairPoint(high, low), PairBytes(high, low);
    Sextets(point);
    LowBits(point / 0x1000 % 0x40);
    LowBits(point / 0x40 % 0x40);
    LowBits(point % 0x40);
    assert bytes[0] as int % 8 == point / 0x40000;
    hide Low;
  }

  lemma LowBits(x: int)
    requires 0 <= x < 0x40
    ensures Low(0x80 + x) == x
  {
  }

  /** The bytes of a character stand for its code point, in as few bytes as it takes, and continue as they must. */
  lemma HeadBytesMeanPoint(text: Text)
    requires text != []
    ensures var bytes, point := HeadBytes(text), HeadPoint(text);
            && PointOf(bytes) == point && 0 <= point < 0x11_0000
            && |bytes| == (if point < 0x80 then 1 else if point < 0x800 then 2 else if point < 0x1_0000 then 3 else 4)
            && forall i :: 0 < i < |bytes| ==> IsContinuation(bytes[i])
  {
    if StartsWithPair(text) {
      PairBytesMeanPair(text[0], text[1]);
    } else {
      UnitBytesMeanUnit(text[0]);
    }
  }

  lemma UnitBytesTell(a: CodeUnit, b: CodeUnit)
    requires UnitBytes(a) == UnitBytes(b)
    ensures a == b
  {
    var s, t := UnitBytes(a), UnitBytes(b);
    assert |s| == |t| && s[0] == t[0] && (|s| > 1 ==> s[1] == t[1]) && (|s| > 2 ==> s[2] == t[2]);
    if a >= 0x800 {
      assert a == 0x40 * (a / 0x40) + a % 0x40 && b == 0x40 * (b / 0x40) + b % 0x40;
      assert a / 0x40 == 0x40 * (a / 0x40 / 0x40) + a / 0x40 % 0x40;
      assert b / 0x40 == 0x40 * (b / 0x40 / 0x40) + b / 0x40 % 0x40;
      assert a / 0x40 / 0x40 == a / 0x1000 && b / 0x40 / 0x40 == b / 0x1000;
    }
  }

  lemma Sextets(n: int)
    requires n >= 0
    ensures n == 0x40000 * (n / 0x40000) + 0x1000 * (n / 0x1000 % 0x40) + 0x40 * (n / 0x40 % 0x40) + n % 0x40
  {
    assert n / 0x40 / 0x40 == n / 0x1000 && n / 0x1000 / 0x40 == n / 0x40000;
  }

  lemma PairBytesTell(h: CodeUnit, l: CodeUnit, high: CodeUnit, low: CodeUnit)
    requires IsHighSurrogate(h) && IsLowSurrogate(l) && IsHighSurrogate(high) && IsLowSurrogate(low)
    requires PairBytes(h, l) == PairBytes(high, low)
    ensures h == high && l == low
  {
    var p := 0x10000 + (h - 0xD800) * 0x400 + (l - 0xDC00);
    var q := 0x10000 + (high - 0xD800) * 0x400 + (low - 0xDC00);
    var s, t := PairBytes(h, l), PairBytes(high, low);
    assert s[0] == t[0] && s[1] == t[1] && s[2] == t[2] && s[3] == t[3];
    Sextets(p);
    Sextets(q);
    assert p == q;
  }

  /** The first byte tells how many bytes a character has. */
  lemma LeadByte(text: Text)
    requires text != []
    ensures var s := HeadBytes(text);
            |s| == if s[0] < 0x80 then 1 else if s[0] < 0xE0 then 2 else if s[0] < 0xF0 then 3 else 4
    ensures StartsWithPair(text) <==> HeadBytes(text)[0] >= 0xF0
  {
  }

  lemma RestWellFormed(text: Text)
    requires WellFormed(text) && text != []
    ensures WellFormed(text[HeadLength(text)..])
    ensures StartsWithPair(text) || !(IsHighSurrogate(text[0]) || IsLowSurrogate(text[0]))
  {
    var n := HeadLength(text);
    var rest := text[n..];
    assert PairedAt(text, 0);
    forall i | 0 <= i < |rest|
      ensures PairedAt(rest, i)
    {
      assert PairedAt(text, i + n);
      if i == 0 && n == 2 {
        assert PairedAt(text, 1);
      }
    }
  }

  lemma HeadTells(a: Text, b: Text)
    requires WellFormed(a) && WellFormed(b) && a != [] && b != [] && HeadBytes(a) == HeadBytes(b)
    ensures HeadLength(a) == HeadLength(b) && a[..HeadLength(a)] == b[..HeadLength(b)]
  {
    hide UnitBytes, PairBytes, WellFormed;
    LeadByte(a);
    LeadByte(b);
    RestWellFormed(a);
    RestWellFormed(b);
    if StartsWithPair(a) {
      PairBytesTell(a[0], a[1], b[0], b[1]);
    } else {
      UnitBytesTell(a[0], b[0]);
    }
  }

  /** Strings without lone surrogates have different bytes when they are different. */
  lemma {:induction false} BytesTell(a: Text, b: Text)
    requires WellFormed(a) && WellFormed(b) && Bytes(a) == Bytes(b)
    ensures a == b
    decreases |a|
  {
    hide HeadBytes, WellFormed;
    if a != [] && b != [] {
      var n := HeadLength(a);
      LeadByte(a);
      LeadByte(b);
      var s, t := HeadBytes(a), HeadBytes(b);
      assert Bytes(a)[0] == s[0] == t[0];
      assert s == Bytes(a)[..|s|] == t;
      assert Bytes(a)[|s|..] == Bytes(a[n..]) && Bytes(b)[|s|..] == Bytes(b[HeadLength(b)..]);
      HeadTells(a, b);
      RestWellFormed(a);
      RestWellFormed(b);
      BytesTell(a[n..], b[n..]);
      assert a == a[..n] + a[n..] && b == b[..n] + b[n..];
    } else {
      EmptyBytes(a);
      EmptyBytes(b);
    }
  }

  lemma EmptyBytes(a: Text)
    ensures Bytes(a) == [] <==> a == []
  {
  }
}
