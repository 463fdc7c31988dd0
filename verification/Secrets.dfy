/** packages/config/src/secrets.ts: the decoder of generated secrets accepts exactly the canonical encodings. */
module Secrets {
  import opened Wrappers
  import opened Utf16

  type Byte = b: int | 0 <= b < 0x100
  type Sextet = s: int | 0 <= s < 0x40

  const SECRET_BYTES := 32
  const SECRET_LENGTH := 43

  /* ----- The alphabet of section 5 of RFC 4648 ----- */

  function Letter(s: Sextet): CodeUnit {
    if s < 26 then 0x41 + s
    else if s < 52 then 0x61 + (s - 26)
    else if s < 62 then 0x30 + (s - 52)
    else if s == 62 then 0x2D
    else 0x5F
  }

  /** The position of a unit in the alphabet. */
  function SextetOf(u: CodeUnit): Option<Sextet> {
    if 0x41 <= u <= 0x5A then Some(u - 0x41)
    else if 0x61 <= u <= 0x7A then Some(u - 0x61 + 26)
    else if 0x30 <= u <= 0x39 then Some(u - 0x30 + 52)
    else if u == 0x2D then Some(62)
    else if u == 0x5F then Some(63)
    else None
  }

  lemma LettersTell(u: CodeUnit, s: Sextet)
    ensures SextetOf(u) == Some(s) <==> u == Letter(s)
  {
  }

  /** The letters are those of table 2 of section 5 of RFC 4648. */
  lemma LettersExactly(s: Sextet)
    ensures s < 26 ==> Letter(s) == "ABCDEFGHIJKLMNOPQRSTUVWXYZ"[s] as int
    ensures 26 <= s < 52 ==> Letter(s) == "abcdefghijklmnopqrstuvwxyz"[s - 26] as int
    ensures 52 <= s ==> Letter(s) == "0123456789-_"[s - 52] as int
  {
    if s < 26 {
      var capitals := "ABCDEFGHIJKLMNOPQRSTUVWXYZ";
      assert capitals[s] as int == 0x41 + s;
    }
  }

  /* ----- Encoding, as the RFC describes it: three bytes are four letters ----- */

  /** The four sextets that three bytes are. */
  function Sextet0(x: Byte): Sextet {
    x as int / 4
  }

  function Sextet1(x: Byte, y: Byte): Sextet {
    x as int % 4 * 16 + y as int / 16
  }

  function Sextet2(y: Byte, z: Byte): Sextet {
    y as int % 16 * 4 + z as int / 64
  }

  function Sextet3(z: Byte): Sextet {
    z as int % 64
  }

  /** The 24 bits of three bytes are those of the four sextets. */
  lemma GroupsExactly(x: Byte, y: Byte, z: Byte)
    ensures 0x1_0000 * x + 0x100 * y + z == 0x4_0000 * Sextet0(x) + 0x1000 * Sextet1(x, y) + 0x40 * Sextet2(y, z) + Sextet3(z)
  {
  }

  /** Unpadded base64url; a last group of one or two bytes is padded with zero bits. */
  function Encode(bytes: seq<Byte>): (text: Text)
    ensures 4 * |bytes| <= 3 * |text| <= 4 * |bytes| + 2
  {
    if bytes == [] then []
    else if |bytes| == 1 then [Letter(Sextet0(bytes[0])), Letter(Sextet1(bytes[0], 0))]
    else if |bytes| == 2 then
      [Letter(Sextet0(bytes[0])), Letter(Sextet1(bytes[0], bytes[1])), Letter(Sextet2(bytes[1], 0))]
    else
      [Letter(Sextet0(bytes[0])), Letter(Sextet1(bytes[0], bytes[1])), Letter(Sextet2(bytes[1], bytes[2])),
       Letter(Sextet3(bytes[2]))] + Encode(bytes[3..])
  }

  /* ----- Decoding, bit by bit ----- */

  /** The bytes written, and the `bits` bits in `buffer` that wait for more. */
  datatype State = State(bytes: seq<Byte>, buffer: nat, bits: nat) {
    predicate Ok() {
      bits in {0, 2, 4, 6} && buffer < Pow2(bits)
    }
  }

  function Pow2(bits: nat): (p: nat)
    ensures p >= 1
  {
    if bits == 0 then 1 else 2 * Pow2(bits - 1)
  }

  /** One letter more: buffer << 6 | sextet, and a byte as soon as there are eight bits; never more than 12 bits. */
  function Step(s: State, sextet: Sextet): State
    requires s.Ok()
  {
    var buffer, bits := s.buffer * 64 + sextet, s.bits + 6;
    if bits >= 8 then State(s.bytes + [buffer / Pow2(bits - 8) % 0x100], buffer % Pow2(bits - 8), bits - 8)
    else State(s.bytes, buffer % Pow2(bits), bits)
  }

  lemma Powers()
    ensures Pow2(0) == 1 && Pow2(2) == 4 && Pow2(4) == 16 && Pow2(6) == 64
  {
    assert Pow2(1) == 2 && Pow2(3) == 8 && Pow2(5) == 32;
  }

  lemma StepIsOk(s: State, sextet: Sextet)
    requires s.Ok()
    ensures Step(s, sextet).Ok()
  {
    Powers();
  }

  /** The loop from some state over the rest of the text; None at a letter that is none. */
  function Run(s: State, text: Text): Option<State>
    requires s.Ok()
    decreases |text|
  {
    if text == [] then Some(s)
    else if SextetOf(text[0]).None? then None
    else
      StepIsOk(s, SextetOf(text[0]).value);
      Run(Step(s, SextetOf(text[0]).value), text[1..])
  }

  function Decoded(text: Text): Option<seq<Byte>> {
    var end := Run(State([], 0, 0), text);
    if |text| != SECRET_LENGTH || end.None? || |end.value.bytes| != SECRET_BYTES || end.value.buffer != 0 then None
    else Some(end.value.bytes)
  }

  /* ----- Whole groups ----- */

  /** The bytes that four sextets are. */
  function Byte0(a: Sextet, b: Sextet): Byte {
    a as int * 4 + b as int / 16
  }

  function Byte1(b: Sextet, c: Sextet): Byte {
    b as int % 16 * 16 + c as int / 4
  }

  function Byte2(c: Sextet, d: Sextet): Byte {
    c as int % 4 * 64 + d as int
  }

  lemma StatesOk(done: seq<Byte>, a: Sextet)
    ensures State(done, a, 6).Ok() && State(done, a % 16, 4).Ok() && State(done, a % 4, 2).Ok() && State(done, 0, 0).Ok()
  {
    Powers();
  }

  lemma FirstStep(done: seq<Byte>, a: Sextet)
    requires State(done, 0, 0).Ok()
    ensures Step(State(done, 0, 0), a) == State(done, a, 6)
  {
    Powers();
  }

  lemma SecondStep(done: seq<Byte>, a: Sextet, b: Sextet)
    requires State(done, a, 6).Ok()
    ensures Step(State(done, a, 6), b) == State(done + [Byte0(a, b)], b % 16, 4)
  {
    Powers();
  }

  lemma ThirdStep(done: seq<Byte>, a: Sextet, b: Sextet)
    requires State(done, a % 16, 4).Ok()
    ensures Step(State(done, a % 16, 4), b) == State(done + [Byte1(a, b)], b % 4, 2)
  {
    Powers();
  }

  lemma FourthStep(done: seq<Byte>, a: Sextet, b: Sextet)
    requires State(done, a % 4, 2).Ok()
    ensures Step(State(done, a % 4, 2), b) == State(done + [Byte2(a, b)], 0, 0)
  {
    Powers();
  }

  lemma Steps(done: seq<Byte>, a: Sextet, b: Sextet)
    ensures State(done, a, 6).Ok() && State(done, a % 16, 4).Ok() && State(done, a % 4, 2).Ok() && State(done, 0, 0).Ok()
    ensures Step(State(done, 0, 0), a) == State(done, a, 6)
    ensures Step(State(done, a, 6), b) == State(done + [Byte0(a, b)], b % 16, 4)
    ensures Step(State(done, a % 16, 4), b) == State(done + [Byte1(a, b)], b % 4, 2)
    ensures Step(State(done, a % 4, 2), b) == State(done + [Byte2(a, b)], 0, 0)
  {
    hide Step, Byte0, Byte1, Byte2;
    StatesOk(done, a);
    FirstStep(done, a);
    SecondStep(done, a, b);
    ThirdStep(done, a, b);
    FourthStep(done, a, b);
  }

  lemma ThreeLetters(done: seq<Byte>, text: Text)
    requires |text| >= 3 && forall i :: 0 <= i < 3 ==> SextetOf(text[i]).Some?
    ensures var a, b, c := SextetOf(text[0]).value, SextetOf(text[1]).value, SextetOf(text[2]).value;
            var after := State(done + [Byte0(a, b), Byte1(b, c)], c % 4, 2);
            after.Ok() && Run(State(done, 0, 0), text) == Run(after, text[3..])
  {
    hide Step, Byte0, Byte1, Byte2, SextetOf;
    var a, b, c := SextetOf(text[0]).value, SextetOf(text[1]).value, SextetOf(text[2]).value;
    Steps(done, a, b);
    Steps(done + [Byte0(a, b)], b, c);
    Steps(done + [Byte0(a, b)] + [Byte1(b, c)], c, a);
    assert done + [Byte0(a, b)] + [Byte1(b, c)] == done + [Byte0(a, b), Byte1(b, c)];
    assert text[1..][1..] == text[2..] && text[2..][1..] == text[3..];
    assert Run(State(done, 0, 0), text) == Run(State(done, a, 6), text[1..]);
    assert Run(State(done, a, 6), text[1..]) == Run(State(done + [Byte0(a, b)], b % 16, 4), text[2..]);
  }

  lemma FourLetters(done: seq<Byte>, text: Text)
    requires |text| >= 4 && forall i :: 0 <= i < 4 ==> SextetOf(text[i]).Some?
    ensures var a, b := SextetOf(text[0]).value, SextetOf(text[1]).value;
            var c, d := SextetOf(text[2]).value, SextetOf(text[3]).value;
            Run(State(done, 0, 0), text) ==
            Run(State(done + [Byte0(a, b), Byte1(b, c), Byte2(c, d)], 0, 0), text[4..])
  {
    hide Step, Byte0, Byte1, Byte2, SextetOf;
    ThreeLetters(done, text);
    var a, b := SextetOf(text[0]).value, SextetOf(text[1]).value;
    var c, d := SextetOf(text[2]).value, SextetOf(text[3]).value;
    var three := done + [Byte0(a, b), Byte1(b, c)];
    Steps(three, c, d);
    assert text[3..][1..] == text[4..];
    assert three + [Byte2(c, d)] == done + [Byte0(a, b), Byte1(b, c), Byte2(c, d)];
  }

  /** Three bytes are made of their sextets. */
  lemma BytesOfSextets(x: Byte, y: Byte, z: Byte)
    ensures Byte0(Sextet0(x), Sextet1(x, y)) == x
    ensures Byte1(Sextet1(x, y), Sextet2(y, z)) == y
    ensures Byte2(Sextet2(y, z), Sextet3(z)) == z
    ensures Sextet2(y, 0) % 4 == 0
  {
  }

  /** Four sextets are those of the bytes they make. */
  lemma SextetsOfBytes(a: Sextet, b: Sextet, c: Sextet, d: Sextet)
    ensures Sextet0(Byte0(a, b)) == a
    ensures Sextet1(Byte0(a, b), Byte1(b, c)) == b
    ensures Sextet2(Byte1(b, c), Byte2(c, d)) == c
    ensures Sextet3(Byte2(c, d)) == d
    ensures c % 4 == 0 ==> Sextet2(Byte1(b, c), 0) == c
  {
  }

  lemma AllLetters(s: State, text: Text, n: nat)
    requires s.Ok() && Run(s, text).Some? && n <= |text|
    ensures forall i :: 0 <= i < n ==> SextetOf(text[i]).Some?
    decreases n
  {
    if n > 0 {
      StepIsOk(s, SextetOf(text[0]).value);
      AllLetters(Step(s, SextetOf(text[0]).value), text[1..], n - 1);
      forall i | 0 <= i < n
        ensures SextetOf(text[i]).Some?
      {
        if i > 0 {
          assert text[i] == text[1..][i - 1];
        }
      }
    }
  }

  lemma LetterDecodes(s: Sextet)
    ensures SextetOf(Letter(s)) == Some(s)
  {
  }

  /** What was encoded is decoded again. */
  lemma {:induction false} DecodesEncoding(done: seq<Byte>, bytes: seq<Byte>)
    requires |bytes| % 3 == 2
    ensures Run(State(done, 0, 0), Encode(bytes)) == Some(State(done + bytes, 0, 2))
    decreases |bytes|
  {
    hide Run, SextetOf, Letter, Byte0, Byte1, Byte2, Sextet0, Sextet1, Sextet2, Sextet3;
    var text := Encode(bytes);
    var x, y := bytes[0], bytes[1];
    LetterDecodes(Sextet0(x));
    LetterDecodes(Sextet1(x, y));
    if |bytes| == 2 {
      LetterDecodes(Sextet2(y, 0));
      BytesOfSextets(x, y, 0);
      ThreeLetters(done, text);
      assert text[3..] == [];
      assert bytes == [x, y];
      RunNothing(State(done + bytes, 0, 2));
    } else {
      var z := bytes[2];
      LetterDecodes(Sextet2(y, z));
      LetterDecodes(Sextet3(z));
      BytesOfSextets(x, y, z);
      FourLetters(done, text);
      assert text[4..] == Encode(bytes[3..]);
      DecodesEncoding(done + [x, y, z], bytes[3..]);
      assert done + [x, y, z] + bytes[3..] == done + bytes;
    }
  }

  lemma RunNothing(s: State)
    requires s.Ok()
    ensures Run(s, []) == Some(s)
  {
  }

  /** What is decoded without a rest is the encoding of the bytes. */
  lemma {:induction false} OnlyEncodings(done: seq<Byte>, text: Text) returns (bytes: seq<Byte>)
    requires |text| % 4 == 3
    requires Run(State(done, 0, 0), text).Some? && Run(State(done, 0, 0), text).value.buffer == 0
    ensures text == Encode(bytes) && 4 * |bytes| == 3 * |text| - 1
    ensures Run(State(done, 0, 0), text).value.bytes == done + bytes
    decreases |text|
  {
    hide Run, SextetOf, Letter, Byte0, Byte1, Byte2, Sextet0, Sextet1, Sextet2, Sextet3;
    AllLetters(State(done, 0, 0), text, if |text| == 3 then 3 else 4);
    var a, b, c := SextetOf(text[0]).value, SextetOf(text[1]).value, SextetOf(text[2]).value;
    LettersTell(text[0], a);
    LettersTell(text[1], b);
    LettersTell(text[2], c);
    var x, y := Byte0(a, b), Byte1(b, c);
    if |text| == 3 {
      ThreeLetters(done, text);
      assert text[3..] == [];
      RunNothing(State(done + [x, y], c % 4, 2));
      SextetsOfBytes(a, b, c, 0);
      bytes := [x, y];
      assert text == [Letter(a), Letter(b), Letter(c)];
    } else {
      var d := SextetOf(text[3]).value;
      LettersTell(text[3], d);
      FourLetters(done, text);
      var z := Byte2(c, d);
      SextetsOfBytes(a, b, c, d);
      var rest := OnlyEncodings(done + [x, y, z], text[4..]);
      bytes := [x, y, z] + rest;
      assert bytes[3..] == rest;
      assert text == [Letter(a), Letter(b), Letter(c), Letter(d)] + text[4..];
      assert done + [x, y, z] + rest == done + bytes;
    }
  }

  /* ----- Main result ----- */

  /** A text is accepted exactly when it is the canonical encoding of some 32 bytes, and gives these bytes. */
  lemma DecodedIsInverse(text: Text, bytes: seq<Byte>)
    ensures Decoded(text) == Some(bytes) <==> |bytes| == SECRET_BYTES && text == Encode(bytes)
  {
    hide Run, Encode;
    if Decoded(text) == Some(bytes) {
      var found := OnlyEncodings([], text);
      assert [] + found == found;
    }
    if |bytes| == SECRET_BYTES && text == Encode(bytes) {
      DecodesEncoding([], bytes);
      assert [] + bytes == bytes;
    }
  }

  /** decodeGeneratedSecret(value) */
  method DecodeGeneratedSecret(value: Text) returns (bytes: array?<Byte>)
    ensures bytes == null <==> Decoded(value).None?
    ensures bytes != null ==> fresh(bytes) && bytes[..] == Decoded(value).value
  {
    hide SextetOf;
    if |value| != SECRET_LENGTH {
      return null;
    }
    bytes := new Byte[SECRET_BYTES];
    var buffer: nat, bits: nat, index := 0, 0, 0;
    assert value[0..] == value;
    for position := 0 to |value|
      invariant 0 <= index <= SECRET_BYTES && 8 * index + bits == 6 * position
      invariant State(bytes[..index], buffer, bits).Ok()
      invariant Run(State([], 0, 0), value) == Run(State(bytes[..index], buffer, bits), value[position..])
    {
      var sextet := SextetOf(value[position]);
      if sextet.None? {
        return null;
      }
      ghost var before := State(bytes[..index], buffer, bits);
      StepIsOk(before, sextet.value);
      Powers();
      assert value[position..][1..] == value[position + 1..];
      buffer := buffer * 64 + sextet.value;
      bits := bits + 6;
      if bits >= 8 {
        bits := bits - 8;
        bytes[index] := buffer / Pow2(bits) % 0x100;
        index := index + 1;
      }
      buffer := buffer % Pow2(bits);
      assert State(bytes[..index], buffer, bits) == Step(before, sextet.value);
    }
    if index != SECRET_BYTES || buffer != 0 {
      return null;
    }
  }
}
