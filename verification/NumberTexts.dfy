/** The texts of numbers, as section 6.1.6.1.20 of ECMA-262 prints them, told as a form. */
module NumberTexts {
  import opened Utf16
  import C = CanonicalJson

  predicate IsFigure(u: CodeUnit) {
    '0' as int <= u <= '9' as int
  }

  predicate AreFigures(s: Text) {
    forall i :: 0 <= i < |s| ==> IsFigure(s[i])
  }

  /** Digits without a leading zero. */
  predicate IsWhole(s: Text) {
    s != [] && AreFigures(s) && (s[0] == '0' as int ==> |s| == 1)
  }

  /** Nothing, or a point and digits. */
  predicate IsFraction(s: Text) {
    s == [] || (|s| > 1 && s[0] == '.' as int && AreFigures(s[1..]))
  }

  /** Nothing, or e, a sign and digits. */
  predicate IsExponent(s: Text) {
    s == [] || (|s| > 2 && s[0] == 'e' as int && (s[1] == '+' as int || s[1] == '-' as int) && AreFigures(s[2..]))
  }

  /** A number as it is printed; -0 is printed as 0. */
  ghost predicate IsPrinted(text: Text, sign: Text, whole: Text, fraction: Text, exponent: Text) {
    && text == sign + (whole + (fraction + exponent))
    && (sign == [] || sign == ['-' as int]) && IsWhole(whole) && IsFraction(fraction) && IsExponent(exponent)
    && text != ['-' as int, '0' as int]
  }

  /* ----- What has the form is a number ----- */

  lemma {:induction false} FiguresEnd(text: Text, i: nat, figures: Text, rest: Text)
    requires i <= |text| && text[i..] == figures + rest && AreFigures(figures) && (rest != [] ==> !IsFigure(rest[0]))
    ensures C.DigitsEnd(text, i) == i + |figures|
    decreases |figures|
  {
    if figures == [] {
      assert i < |text| ==> text[i] == text[i..][0] == rest[0];
    } else {
      assert text[i] == text[i..][0] == figures[0];
      assert text[i + 1..] == text[i..][1..] == figures[1..] + rest;
      FiguresEnd(text, i + 1, figures[1..], rest);
    }
  }

  lemma FractionEnds(text: Text, b: nat, fraction: Text, exponent: Text)
    requires b <= |text| && text[b..] == fraction + exponent && IsFraction(fraction) && IsExponent(exponent)
    ensures C.FractionEnd(text, b) == b + |fraction|
  {
    hide C.DigitsEnd;
    assert b < |text| ==> text[b] == text[b..][0];
    if fraction != [] {
      assert text[b + 1..] == text[b..][1..] == fraction[1..] + exponent;
      FiguresEnd(text, b + 1, fraction[1..], exponent);
    }
  }

  /** How a number text ends after its digits. */
  predicate EndsWell(text: Text, c: nat)
    requires c <= |text|
  {
    c == |text| || (c + 2 < |text| && text[c] == 0x65 && (text[c + 1] == 0x2B || text[c + 1] == C.MINUS)
                    && C.DigitsEnd(text, c + 2) == |text|)
  }

  lemma ExponentEnds(text: Text, c: nat, exponent: Text)
    requires c <= |text| && text[c..] == exponent && IsExponent(exponent)
    ensures EndsWell(text, c)
  {
    hide C.DigitsEnd;
    if exponent != [] {
      assert text[c] == exponent[0] && text[c + 1] == exponent[1] && text[c + 2..] == exponent[2..] + [];
      FiguresEnd(text, c + 2, exponent[2..], []);
    }
  }

  lemma Ends(sign: Text, whole: Text, fraction: Text, exponent: Text)
    ensures var text := sign + (whole + (fraction + exponent));
            && text[|sign|..] == whole + (fraction + exponent)
            && text[|sign| + |whole|..] == fraction + exponent
            && text[|sign| + |whole| + |fraction|..] == exponent
  {
    After(sign, whole + (fraction + exponent));
    After(sign + whole, fraction + exponent);
    After(sign + whole + fraction, exponent);
    assert sign + whole + (fraction + exponent) == sign + (whole + (fraction + exponent));
    assert sign + whole + fraction + exponent == sign + whole + (fraction + exponent);
  }

  lemma After(front: Text, back: Text)
    ensures (front + back)[|front|..] == back
  {
  }

  lemma SignStarts(text: Text, sign: Text, rest: Text)
    requires text == sign + rest && (sign == [] || sign == ['-' as int]) && rest != [] && IsFigure(rest[0])
    requires text != ['-' as int, '0' as int]
    ensures C.WholeStart(text) == |sign| && text[|sign|] == rest[0]
    ensures |sign| == 1 ==> text[1..] != [C.DIGIT_ZERO]
  {
    assert |sign| == 1 ==> text == [text[0]] + text[1..];
  }

  lemma PrintedIsNumber(text: Text, sign: Text, whole: Text, fraction: Text, exponent: Text)
    requires IsPrinted(text, sign, whole, fraction, exponent)
    ensures C.IsNumberText(text)
  {
    hide C.DigitsEnd, C.FractionEnd, IsFraction, IsExponent, C.IsNumberText, EndsWell, IsWhole, AreFigures, C.WholeStart;
    Ends(sign, whole, fraction, exponent);
    WholeBegins(whole, fraction + exponent);
    NoFigureFirst(fraction, exponent);
    FiguresEnd(text, |sign|, whole, fraction + exponent);
    FractionEnds(text, |sign| + |whole|, fraction, exponent);
    ExponentEnds(text, |sign| + |whole| + |fraction|, exponent);
    SignStarts(text, sign, whole + (fraction + exponent));
    OnePoint(fraction);
    NumberFrom(text, |sign|, |sign| + |whole|, |sign| + |whole| + |fraction|);
  }

  lemma WholeBegins(whole: Text, rest: Text)
    requires IsWhole(whole)
    ensures AreFigures(whole) && |whole| > 0 && (whole + rest)[0] == whole[0] && IsFigure(whole[0])
    ensures whole[0] == '0' as int ==> |whole| == 1
  {
  }

  lemma NumberFrom(text: Text, a: nat, b: nat, c: nat)
    requires C.WholeStart(text) == a < b <= c <= |text| && C.DigitsEnd(text, a) == b && C.FractionEnd(text, b) == c
    requires (text[a] == C.DIGIT_ZERO ==> b == a + 1) && c != b + 1 && EndsWell(text, c)
    requires a == 1 ==> text[1..] != [C.DIGIT_ZERO]
    ensures C.IsNumberText(text)
  {
  }

  lemma OnePoint(fraction: Text)
    requires IsFraction(fraction)
    ensures |fraction| != 1
  {
  }

  lemma NoFigureFirst(fraction: Text, exponent: Text)
    requires IsFraction(fraction) && IsExponent(exponent)
    ensures fraction + exponent != [] ==> !IsFigure((fraction + exponent)[0])
  {
  }

  /* ----- A number has the form ----- */

  lemma FractionIs(text: Text, b: nat)
    requires b <= |text| && C.FractionEnd(text, b) != b + 1
    ensures IsFraction(text[b..C.FractionEnd(text, b)])
  {
    hide C.DigitsEnd;
  }

  lemma ExponentIs(text: Text, c: nat)
    requires c <= |text| && EndsWell(text, c)
    ensures IsExponent(text[c..])
  {
    hide C.DigitsEnd;
  }

  lemma InFour(text: Text, a: nat, b: nat, c: nat)
    requires a <= b <= c <= |text|
    ensures text == text[..a] + (text[a..b] + (text[b..c] + text[c..]))
  {
    assert text == text[..a] + text[a..] && text[a..] == text[a..b] + text[b..] && text[b..] == text[b..c] + text[c..];
  }

  lemma MinusZero(text: Text)
    ensures text == ['-' as int, '0' as int] ==> |text| > 0 && text[1..] == ['0' as int]
  {
  }

  lemma NumberIsPrinted(text: Text)
    requires C.IsNumberText(text)
    ensures exists sign, whole, fraction, exponent :: IsPrinted(text, sign, whole, fraction, exponent)
  {
    hide C.DigitsEnd, C.FractionEnd, IsFraction, IsExponent, IsPrinted;
    var a := C.WholeStart(text);
    var b := C.DigitsEnd(text, a);
    var c := C.FractionEnd(text, b);
    FractionIs(text, b);
    ExponentIs(text, c);
    assert IsWhole(text[a..b]);
    assert a == 1 ==> text[..a] == ['-' as int];
    MinusZero(text);
    FourArePrinted(text, a, b, c);
  }

  lemma FourArePrinted(text: Text, a: nat, b: nat, c: nat)
    requires a <= b <= c <= |text| && a <= 1 && text != ['-' as int, '0' as int]
    requires a == 1 ==> text[..a] == ['-' as int]
    requires IsWhole(text[a..b]) && IsFraction(text[b..c]) && IsExponent(text[c..])
    ensures IsPrinted(text, text[..a], text[a..b], text[b..c], text[c..])
  {
    hide IsWhole, IsFraction, IsExponent;
    InFour(text, a, b, c);
  }

  /** The texts of numbers are exactly those of this form. */
  lemma NumbersExactly(text: Text)
    ensures C.IsNumberText(text) <==> exists sign, whole, fraction, exponent :: IsPrinted(text, sign, whole, fraction, exponent)
  {
    hide C.IsNumberText, IsPrinted;
    if C.IsNumberText(text) {
      NumberIsPrinted(text);
    }
    if sign, whole, fraction, exponent :| IsPrinted(text, sign, whole, fraction, exponent) {
      PrintedIsNumber(text, sign, whole, fraction, exponent);
    }
  }
}
