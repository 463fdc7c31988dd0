/** Text as a JavaScript string holds it: a sequence of UTF-16 code units. */
module Utf16 {
  type CodeUnit = u: int | 0 <= u < 0x1_0000
  type Text = seq<CodeUnit>

  predicate IsHighSurrogate(u: CodeUnit) {
    0xD800 <= u <= 0xDBFF
  }

  predicate IsLowSurrogate(u: CodeUnit) {
    0xDC00 <= u <= 0xDFFF
  }

  /** The unit is no lone surrogate: a high half is followed by a low half, a low half follows a high one. */
  predicate PairedAt(text: Text, i: nat)
    requires i < |text|
  {
    && (IsHighSurrogate(text[i]) ==> i + 1 < |text| && IsLowSurrogate(text[i + 1]))
    && (IsLowSurrogate(text[i]) ==> 0 < i && IsHighSurrogate(text[i - 1]))
  }

  /** No lone surrogate. */
  predicate WellFormed(text: Text) {
    forall i :: 0 <= i < |text| ==> PairedAt(text, i)
  }

  /** The position does not fall between the two halves of a surrogate pair. */
  predicate OnBoundary(text: Text, i: nat)
    requires i <= |text|
  {
    !(0 < i < |text| && IsHighSurrogate(text[i - 1]) && IsLowSurrogate(text[i]))
  }

  /** The class \s of JavaScript regular expressions. */
  predicate IsWhitespace(u: CodeUnit) {
    || 0x09 <= u <= 0x0D
    || u == 0x20
    || u == 0xA0
    || u == 0x1680
    || 0x2000 <= u <= 0x200A
    || u == 0x2028
    || u == 0x2029
    || u == 0x202F
    || u == 0x205F
    || u == 0x3000
    || u == 0xFEFF
  }
}
