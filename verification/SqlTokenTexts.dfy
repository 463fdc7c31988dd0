/** packages/db/src/sql-lexer.ts: which texts are one token, one white space character or one comment. */
module SqlTokenTexts {
  import opened Wrappers
  import opened SqlLexer
  import opened SqlCompositional
  import opened SqlSplit
  import opened SqlTargets

  /* ----- Characters ----- */

  /** White space, as \s has it. */
  predicate IsBlank(c: char) {
    || c == '\t' || c == '\n' || c as int == 0x0B || c as int == 0x0C || c == '\r' || c == ' ' || c as int == 0xA0
    || c as int == 0x1680 || 0x2000 <= c as int <= 0x200A || c as int == 0x2028 || c as int == 0x2029 || c as int == 0x202F
    || c as int == 0x205F || c as int == 0x3000 || c as int == 0xFEFF
  }

  predicate IsFigure(c: char) {
    '0' <= c <= '9'
  }

  /** A letter, an underscore, or anything beyond ASCII. */
  predicate IsLetter(c: char) {
    'a' <= c <= 'z' || 'A' <= c <= 'Z' || c == '_' || c as int > 0x7F
  }

  predicate IsNameChar(c: char) {
    IsLetter(c) || IsFigure(c) || c == '$'
  }

  predicate All(s: string, class_: char -> bool) {
    forall i :: 0 <= i < |s| ==> class_(s[i])
  }

  /** Digits and underscores, as they may stand in a number. */
  predicate IsGrouped(c: char) {
    IsFigure(c) || c == '_'
  }

  predicate IsHexGrouped(c: char) {
    IsGrouped(c) || 'a' <= c <= 'f' || 'A' <= c <= 'F'
  }

  /* ----- Texts ----- */

  /** `--` up to a line end, or a comment that is closed or runs on; nothing follows its end. */
  predicate IsComment(s: string) {
    || ("--" <= s && forall i :: 2 <= i < |s| - 1 ==> s[i] != '\n')
    || ("/*" <= s && forall i :: 2 <= i < |s| - 2 ==> !(s[i] == '*' && s[i + 1] == '/'))
  }

  /** Quotes around a text in which they are doubled. */
  ghost predicate IsQuoted(s: string, quote: char) {
    exists v :: s == [quote] + (Doubled(v, quote) + [quote])
  }

  predicate IsBracketed(s: string) {
    |s| >= 2 && s[0] == '[' && s[|s| - 1] == ']' && forall i :: 0 < i < |s| - 1 ==> s[i] != ']'
  }

  predicate IsHexNumber(s: string) {
    |s| >= 2 && s[0] == '0' && (s[1] == 'x' || s[1] == 'X') && All(s[2..], IsHexGrouped)
  }

  /** Nothing, or a point and digits. */
  predicate IsPoint(s: string) {
    s == "" || (s[0] == '.' && All(s[1..], IsGrouped))
  }

  /** Nothing, or e, a digit or a sign, and digits. */
  predicate IsPower(s: string) {
    s == "" || (|s| >= 2 && (s[0] == 'e' || s[0] == 'E') && (IsFigure(s[1]) || s[1] == '+' || s[1] == '-') && All(s[2..], IsFigure))
  }

  ghost predicate IsDecimalOf(s: string, whole: string, point: string, power: string) {
    s == whole + (point + power) && All(whole, IsGrouped) && IsPoint(point) && IsPower(power)
  }

  /** It begins with a digit, or a point and a digit. */
  ghost predicate IsDecimal(s: string) {
    && s != "" && (IsFigure(s[0]) || (s[0] == '.' && |s| > 1 && IsFigure(s[1])))
    && !(|s| > 1 && s[0] == '0' && (s[1] == 'x' || s[1] == 'X'))
    && exists whole, point, power :: IsDecimalOf(s, whole, point, power)
  }

  predicate IsParameterText(s: string) {
    || ("?" <= s && All(s[1..], IsFigure))
    || (|s| >= 2 && (s[0] == ':' || s[0] == '@' || s[0] == '$') && All(s[1..], IsNameChar))
  }

  predicate IsWordText(s: string) {
    s != "" && IsLetter(s[0]) && !IsBlank(s[0]) && All(s[1..], IsNameChar)
  }

  /** Any other character. */
  predicate IsOther(c: char) {
    && !IsBlank(c) && !IsLetter(c) && !IsFigure(c)
    && c != '\'' && c != '"' && c != '`' && c != '[' && c != '?' && c != ';'
  }

  ghost predicate IsPiece(s: string, kind: Option<TokenKind>) {
    match kind
    case None => (|s| == 1 && IsBlank(s[0])) || IsComment(s)
    case Some(Literal) => IsQuoted(s, '\'')
    case Some(Blob) => s != "" && (s[0] == 'x' || s[0] == 'X') && IsQuoted(s[1..], '\'')
    case Some(Identifier) => IsQuoted(s, '"') || IsQuoted(s, '`') || IsBracketed(s)
    case Some(Number) => IsHexNumber(s) || IsDecimal(s)
    case Some(Parameter) => IsParameterText(s)
    case Some(Word) => IsWordText(s)
    case Some(Semicolon) => s == ";"
    case Some(Punctuation) => |s| == 1 && IsOther(s[0])
  }

  /* ----- Scanning ----- */

  lemma {:induction false} SpanIs(s: string, i: nat, end: nat, class_: Class)
    requires i <= end <= |s| && (forall k :: i <= k < end ==> In(s[k], class_)) && (end < |s| ==> !In(s[end], class_))
    ensures Span(s, i, class_) == end
    decreases end - i
  {
    if i < end {
      SpanIs(s, i + 1, end, class_);
    }
  }

  lemma {:induction false} SpanHolds(s: string, i: nat, class_: Class)
    requires i <= |s|
    ensures var end := Span(s, i, class_); (forall k :: i <= k < end ==> In(s[k], class_)) && (end < |s| ==> !In(s[end], class_))
    decreases |s| - i
  {
    if i < |s| && In(s[i], class_) {
      SpanHolds(s, i + 1, class_);
    }
  }

  lemma {:induction false} PastExactly(s: string, i: nat, c: char)
    requires i <= |s|
    ensures OrEnd(Past(s, i, c), s) == |s| <==> forall k :: i <= k < |s| - 1 ==> s[k] != c
    ensures Past(s, i, c) == Some(|s|) <==> i < |s| && s[|s| - 1] == c && forall k :: i <= k < |s| - 1 ==> s[k] != c
    decreases |s| - i
  {
    if i < |s| && s[i] != c {
      PastExactly(s, i + 1, c);
    }
  }

  lemma {:induction false} PastCloseExactly(s: string, i: nat)
    requires i <= |s|
    ensures OrEnd(PastClose(s, i), s) == |s| <==> forall k :: i <= k < |s| - 2 ==> !(s[k] == '*' && s[k + 1] == '/')
    decreases |s| - i
  {
    if i + 1 < |s| && !(s[i] == '*' && s[i + 1] == '/') {
      PastCloseExactly(s, i + 1);
    }
  }

  lemma {:induction false} ScanReads(s: string, i: nat, quote: char) returns (v: string)
    requires i <= |s| && ScanQuoted(s, i, quote) == Some(|s|)
    ensures s[i..] == Doubled(v, quote) + [quote]
    decreases |s| - i
  {
    if s[i] != quote {
      v := ScanReads(s, i + 1, quote);
      v := [s[i]] + v;
      assert s[i..] == [s[i]] + s[i + 1..];
    } else if i + 1 < |s| && s[i + 1] == quote {
      v := ScanReads(s, i + 2, quote);
      v := [quote] + v;
      assert s[i..] == [s[i], s[i + 1]] + s[i + 2..];
    } else {
      v := "";
      assert s[i..] == [quote];
    }
  }

  lemma {:induction false} ScanFinds(s: string, i: nat, quote: char, v: string)
    requires i <= |s| && s[i..] == Doubled(v, quote) + [quote]
    ensures ScanQuoted(s, i, quote) == Some(|s|)
    decreases |v|
  {
    assert s[i] == s[i..][0];
    if v == "" {
      assert |s[i..]| == 1;
    } else if v[0] == quote {
      assert s[i + 1] == s[i..][1];
      assert s[i + 2..] == s[i..][2..] == Doubled(v[1..], quote) + [quote];
      ScanFinds(s, i + 2, quote, v[1..]);
    } else {
      assert s[i + 1..] == s[i..][1..] == Doubled(v[1..], quote) + [quote];
      ScanFinds(s, i + 1, quote, v[1..]);
    }
  }

  /** Just past the opening quote, the scan reaches the end exactly for a quoted text. */
  lemma QuotedExactly(s: string, i: nat, quote: char)
    requires i < |s| && s[i] == quote
    ensures ScanQuoted(s, i + 1, quote) == Some(|s|) <==> IsQuoted(s[i..], quote)
  {
    assert s[i..] == [quote] + s[i + 1..];
    if ScanQuoted(s, i + 1, quote) == Some(|s|) {
      var v := ScanReads(s, i + 1, quote);
    }
    if v :| s[i..] == [quote] + (Doubled(v, quote) + [quote]) {
      assert s[i + 1..] == s[i..][1..];
      ScanFinds(s, i + 1, quote, v);
    }
  }

  lemma QuotedBegins(s: string, quote: char)
    requires IsQuoted(s, quote)
    ensures |s| >= 2 && s[0] == quote
  {
  }

  lemma ClassesAre(c: char)
    ensures IsSpace(c) <==> IsBlank(c)
    ensures IsIdentifierStart(c) <==> IsLetter(c)
    ensures IsIdentifierPart(c) <==> IsNameChar(c)
    ensures In(c, Digits) <==> IsFigure(c)
    ensures In(c, DigitsOrUnderscore) <==> IsGrouped(c)
    ensures In(c, HexDigits) <==> IsHexGrouped(c)
    ensures In(c, IdentifierParts) <==> IsNameChar(c)
  {
  }

  lemma AllClassesAre()
    ensures forall c :: IsSpace(c) <==> IsBlank(c)
    ensures forall c :: IsIdentifierStart(c) <==> IsLetter(c)
    ensures forall c :: IsIdentifierPart(c) <==> IsNameChar(c)
    ensures forall c :: In(c, Digits) <==> IsFigure(c)
    ensures forall c :: In(c, DigitsOrUnderscore) <==> IsGrouped(c)
    ensures forall c :: In(c, HexDigits) <==> IsHexGrouped(c)
    ensures forall c :: In(c, IdentifierParts) <==> IsNameChar(c)
  {
    hide *;
    forall c
      ensures IsSpace(c) <==> IsBlank(c)
      ensures IsIdentifierStart(c) <==> IsLetter(c)
      ensures IsIdentifierPart(c) <==> IsNameChar(c)
      ensures In(c, Digits) <==> IsFigure(c)
      ensures In(c, DigitsOrUnderscore) <==> IsGrouped(c)
      ensures In(c, HexDigits) <==> IsHexGrouped(c)
      ensures In(c, IdentifierParts) <==> IsNameChar(c)
    {
      ClassesAre(c);
    }
  }

  /** A run of one class reaches the end exactly when all the rest is of that class. */
  lemma SpanToEnd(s: string, i: nat, class_: Class, chars: char -> bool)
    requires i <= |s| && forall c :: In(c, class_) <==> chars(c)
    ensures Span(s, i, class_) == |s| <==> All(s[i..], chars)
  {
    SpanHolds(s, i, class_);
    if All(s[i..], chars) {
      assert forall k :: i <= k < |s| ==> s[k] == s[i..][k - i];
      SpanIs(s, i, |s|, class_);
    }
  }

  /* ----- Numbers ----- */

  lemma HexExactly(s: string)
    requires s != "" && IsHexPrefix(s)
    ensures NumberEnd(s) == |s| <==> IsHexNumber(s)
    ensures StartsNumber(s)
  {
    hide Span, IsHexGrouped, In;
    AllClassesAre();
    SpanToEnd(s, 2, HexDigits, IsHexGrouped);
  }

  lemma WholeReads(s: string)
    ensures All(s[..Span(s, 0, DigitsOrUnderscore)], IsGrouped)
  {
    AllClassesAre();
    hide Span, In;
    SpanHolds(s, 0, DigitsOrUnderscore);
  }

  lemma PointReads(s: string, a: nat)
    requires a <= |s|
    ensures IsPoint(s[a..FractionEnd(s, a)])
  {
    AllClassesAre();
    hide Span, In, IsGrouped;
    if At(s, a, '.') {
      SpanHolds(s, a + 1, DigitsOrUnderscore);
      var b := FractionEnd(s, a);
      assert s[a..b][1..] == s[a + 1..b];
    }
  }

  lemma PowerReads(s: string, b: nat)
    requires b <= |s| && ExponentEnd(s, b) == |s|
    ensures IsPower(s[b..])
  {
    AllClassesAre();
    FigureIs();
    hide Span, In;
    if ExponentAt(s, b) {
      SpanHolds(s, b + 2, Digits);
      assert s[b..][2..] == s[b + 2..];
    }
  }

  lemma DecimalReads(s: string)
    requires s != "" && !IsHexPrefix(s) && NumberEnd(s) == |s|
    ensures exists whole, point, power :: IsDecimalOf(s, whole, point, power)
  {
    hide Span, FractionEnd, ExponentEnd, IsPoint, IsPower, All, IsHexPrefix;
    var a := Span(s, 0, DigitsOrUnderscore);
    var b := FractionEnd(s, a);
    WholeReads(s);
    PointReads(s, a);
    PowerReads(s, b);
    assert s == s[..a] + (s[a..b] + s[b..]);
    assert IsDecimalOf(s, s[..a], s[a..b], s[b..]);
  }

  lemma FigureIs()
    ensures forall c :: IsDigit(c) <==> IsFigure(c)
  {
  }

  lemma WholeFinds(s: string, whole: string, rest: string)
    requires s == whole + rest && All(whole, IsGrouped) && (rest != "" ==> rest[0] == '.' || rest[0] == 'e' || rest[0] == 'E')
    ensures Span(s, 0, DigitsOrUnderscore) == |whole|
  {
    AllClassesAre();
    hide Span, In;
    assert forall k :: 0 <= k < |whole| ==> s[k] == whole[k];
    SpanIs(s, 0, |whole|, DigitsOrUnderscore);
  }

  lemma PointFinds(s: string, a: nat, point: string, power: string)
    requires a <= |s| && s[a..] == point + power && IsPoint(point) && IsPower(power)
    ensures FractionEnd(s, a) == a + |point|
  {
    AllClassesAre();
    hide Span, In;
    assert a < |s| ==> s[a] == s[a..][0];
    if point != "" {
      var b := a + |point|;
      assert b < |s| ==> s[b] == s[a..][|point|] == power[0];
      assert forall k :: a + 1 <= k < b ==> s[k] == s[a..][k - a] == point[1..][k - a - 1];
      SpanIs(s, a + 1, b, DigitsOrUnderscore);
    }
  }

  lemma PowerFinds(s: string, b: nat, power: string)
    requires b <= |s| && s[b..] == power && IsPower(power)
    ensures ExponentEnd(s, b) == |s|
  {
    AllClassesAre();
    FigureIs();
    hide Span, In;
    if power != "" {
      assert s[b] == power[0] && s[b + 1] == power[1];
      assert forall k :: b + 2 <= k < |s| ==> s[k] == power[2..][k - b - 2];
      SpanIs(s, b + 2, |s|, Digits);
    }
  }

  lemma DecimalFinds(s: string, whole: string, point: string, power: string)
    requires s != "" && !IsHexPrefix(s) && IsDecimalOf(s, whole, point, power)
    ensures NumberEnd(s) == |s|
  {
    var a := |whole|;
    var b := a + |point|;
    assert s[a..] == point + power && s[b..] == power;
    WholeFinds(s, whole, point + power);
    hide Span, FractionEnd, ExponentEnd, All, IsHexPrefix, IsPoint, IsPower;
    PointFinds(s, a, point, power);
    PowerFinds(s, b, power);
  }

  /** A text that begins like a number is one number exactly when it has the form of one. */
  lemma NumbersExactly(s: string)
    requires s != ""
    ensures StartsNumber(s) && NumberEnd(s) == |s| <==> IsHexNumber(s) || IsDecimal(s)
  {
    hide NumberEnd, IsDecimalOf, All;
    FigureIs();
    if IsHexPrefix(s) {
      HexExactly(s);
    } else {
      if StartsNumber(s) && NumberEnd(s) == |s| {
        DecimalReads(s);
      }
      if IsDecimal(s) {
        var whole, point, power :| IsDecimalOf(s, whole, point, power);
        DecimalFinds(s, whole, point, power);
      }
    }
  }

  /* ----- One piece ----- */

  /** How a piece of each kind begins. */
  lemma PieceBegins(s: string, kind: Option<TokenKind>)
    requires IsPiece(s, kind)
    ensures s != ""
    ensures kind == None ==> IsBlank(s[0]) || "--" <= s || "/*" <= s
    ensures kind == Some(Literal) ==> s[0] == '\''
    ensures kind == Some(Blob) ==> (s[0] == 'x' || s[0] == 'X') && |s| > 1 && s[1] == '\''
    ensures kind == Some(Identifier) ==> s[0] == '"' || s[0] == '`' || s[0] == '['
    ensures kind == Some(Number) ==> IsFigure(s[0]) || (s[0] == '.' && |s| > 1 && IsFigure(s[1]))
    ensures kind == Some(Parameter) ==> s[0] == '?' || ((s[0] == ':' || s[0] == '@' || s[0] == '$') && |s| > 1 && IsNameChar(s[1]))
    ensures kind == Some(Word) ==> IsLetter(s[0]) && !IsBlank(s[0]) && !((s[0] == 'x' || s[0] == 'X') && |s| > 1 && s[1] == '\'')
    ensures kind == Some(Semicolon) ==> s[0] == ';'
    ensures kind == Some(Punctuation) ==> IsOther(s[0]) && |s| == 1
  {
    hide IsDecimalOf, IsBlank, Doubled;
    if kind == Some(Word) && |s| > 1 {
      assert s[1] == s[1..][0];
    }
    if kind == Some(Parameter) && |s| > 1 {
      assert s[1] == s[1..][0];
    }
  }

  lemma BlankExactly(s: string, kind: Option<TokenKind>)
    requires s != "" && IsBlank(s[0])
    ensures LexNext(s) == Piece(kind, |s|) <==> IsPiece(s, kind)
  {
    ClassesAre(s[0]);
    hide IsDecimal, IsQuoted, Span;
    if IsPiece(s, kind) {
      PieceBegins(s, kind);
    }
  }

  lemma CommentExactly(s: string, kind: Option<TokenKind>)
    requires |s| > 1 && ((s[0] == '-' && s[1] == '-') || (s[0] == '/' && s[1] == '*'))
    ensures LexNext(s) == Piece(kind, |s|) <==> IsPiece(s, kind)
  {
    ClassesAre(s[0]);
    PastExactly(s, 2, '\n');
    PastCloseExactly(s, 2);
    assert "--" <= s <==> s[0] == '-' && s[1] == '-';
    assert "/*" <= s <==> s[0] == '/' && s[1] == '*';
    hide IsDecimal, IsQuoted, Span, Past, PastClose;
    if IsPiece(s, kind) {
      PieceBegins(s, kind);
    }
  }

  lemma ApostropheExactly(s: string, kind: Option<TokenKind>)
    requires s != "" && s[0] == '\''
    ensures LexNext(s) == Piece(kind, |s|) <==> IsPiece(s, kind)
  {
    ClassesAre(s[0]);
    QuotedExactly(s, 0, '\'');
    assert s[0..] == s;
    hide IsDecimal, IsQuoted, Span, ScanQuoted;
    if IsPiece(s, kind) {
      PieceBegins(s, kind);
    }
  }

  lemma BlobExactly(s: string, kind: Option<TokenKind>)
    requires |s| > 1 && (s[0] == 'x' || s[0] == 'X') && s[1] == '\''
    ensures LexNext(s) == Piece(kind, |s|) <==> IsPiece(s, kind)
  {
    ClassesAre(s[0]);
    QuotedExactly(s, 1, '\'');
    hide IsDecimal, IsQuoted, Span, ScanQuoted;
    if IsPiece(s, kind) {
      PieceBegins(s, kind);
    }
  }

  lemma QuoteExactly(s: string, kind: Option<TokenKind>)
    requires s != "" && (s[0] == '"' || s[0] == '`')
    ensures LexNext(s) == Piece(kind, |s|) <==> IsPiece(s, kind)
  {
    ClassesAre(s[0]);
    QuotedExactly(s, 0, s[0]);
    assert s[0..] == s;
    if IsQuoted(s, '"') {
      QuotedBegins(s, '"');
    }
    if IsQuoted(s, '`') {
      QuotedBegins(s, '`');
    }
    hide IsDecimal, IsQuoted, Span, ScanQuoted;
    if IsPiece(s, kind) {
      PieceBegins(s, kind);
    }
  }

  lemma BracketExactly(s: string, kind: Option<TokenKind>)
    requires s != "" && s[0] == '['
    ensures LexNext(s) == Piece(kind, |s|) <==> IsPiece(s, kind)
  {
    ClassesAre(s[0]);
    PastExactly(s, 1, ']');
    if IsQuoted(s, '"') {
      QuotedBegins(s, '"');
    }
    if IsQuoted(s, '`') {
      QuotedBegins(s, '`');
    }
    hide IsDecimal, IsQuoted, Span, Past;
    if IsPiece(s, kind) {
      PieceBegins(s, kind);
    }
  }

  lemma NumberExactly(s: string, kind: Option<TokenKind>)
    requires s != "" && (IsFigure(s[0]) || (s[0] == '.' && |s| > 1 && IsFigure(s[1])))
    ensures LexNext(s) == Piece(kind, |s|) <==> IsPiece(s, kind)
  {
    ClassesAre(s[0]);
    FigureIs();
    NumbersExactly(s);
    hide IsDecimal, IsHexNumber, IsQuoted, Span, NumberEnd;
    if IsPiece(s, kind) {
      PieceBegins(s, kind);
    }
  }

  lemma MarkExactly(s: string, kind: Option<TokenKind>)
    requires s != "" && s[0] == '?'
    ensures LexNext(s) == Piece(kind, |s|) <==> IsPiece(s, kind)
  {
    AllClassesAre();
    SpanToEnd(s, 1, Digits, IsFigure);
    assert "?" <= s;
    hide IsDecimal, IsQuoted, Span, All;
    if IsPiece(s, kind) {
      PieceBegins(s, kind);
    }
  }

  lemma SigilExactly(s: string, kind: Option<TokenKind>)
    requires |s| > 1 && (s[0] == ':' || s[0] == '@' || s[0] == '$') && IsNameChar(s[1])
    ensures LexNext(s) == Piece(kind, |s|) <==> IsPiece(s, kind)
  {
    AllClassesAre();
    SpanToEnd(s, 2, IdentifierParts, IsNameChar);
    AllButFirst(s[1..]);
    assert s[1..][1..] == s[2..] && !("?" <= s);
    hide IsDecimal, IsQuoted, Span, All;
    if IsPiece(s, kind) {
      PieceBegins(s, kind);
    }
  }

  lemma AllButFirst(s: string)
    requires s != "" && IsNameChar(s[0])
    ensures All(s, IsNameChar) <==> All(s[1..], IsNameChar)
  {
    assert forall i :: 0 < i < |s| ==> s[i] == s[1..][i - 1];
  }

  lemma WordExactly(s: string, kind: Option<TokenKind>)
    requires s != "" && IsLetter(s[0]) && !IsBlank(s[0]) && !((s[0] == 'x' || s[0] == 'X') && |s| > 1 && s[1] == '\'')
    ensures LexNext(s) == Piece(kind, |s|) <==> IsPiece(s, kind)
  {
    AllClassesAre();
    SpanToEnd(s, 1, IdentifierParts, IsNameChar);
    hide IsDecimal, IsQuoted, Span, All;
    if IsPiece(s, kind) {
      PieceBegins(s, kind);
    }
  }

  /** A semicolon, or a character that begins nothing else. */
  lemma SingleExactly(s: string, kind: Option<TokenKind>)
    requires s != "" && (s[0] == ';' || IsOther(s[0]))
    requires !(|s| > 1 && ((s[0] == '-' && s[1] == '-') || (s[0] == '/' && s[1] == '*')))
    requires !(|s| > 1 && s[0] == '.' && IsFigure(s[1]))
    requires !(|s| > 1 && (s[0] == ':' || s[0] == '@' || s[0] == '$') && IsNameChar(s[1]))
    ensures LexNext(s) == Piece(kind, |s|) <==> IsPiece(s, kind)
  {
    AllClassesAre();
    FigureIs();
    hide IsDecimal, IsQuoted, Span, All;
    if IsPiece(s, kind) {
      PieceBegins(s, kind);
    }
    assert s == ";" <==> |s| == 1 && s[0] == ';';
  }

  /** A text is read as one piece of a kind exactly when it has the form of that kind. */
  lemma PiecesExactly(s: string, kind: Option<TokenKind>)
    requires s != ""
    ensures LexNext(s) == Piece(kind, |s|) <==> IsPiece(s, kind)
  {
    hide LexNext, IsPiece, IsBlank, IsLetter;
    var c := s[0];
    if IsBlank(c) {
      BlankExactly(s, kind);
    } else if |s| > 1 && ((c == '-' && s[1] == '-') || (c == '/' && s[1] == '*')) {
      CommentExactly(s, kind);
    } else if c == '\'' {
      ApostropheExactly(s, kind);
    } else if |s| > 1 && (c == 'x' || c == 'X') && s[1] == '\'' {
      BlobExactly(s, kind);
    } else if c == '"' || c == '`' {
      QuoteExactly(s, kind);
    } else if c == '[' {
      BracketExactly(s, kind);
    } else if IsFigure(c) || (c == '.' && |s| > 1 && IsFigure(s[1])) {
      NumberExactly(s, kind);
    } else if c == '?' {
      MarkExactly(s, kind);
    } else if (c == ':' || c == '@' || c == '$') && |s| > 1 && IsNameChar(s[1]) {
      SigilExactly(s, kind);
    } else if IsLetter(c) {
      WordExactly(s, kind);
    } else {
      SingleExactly(s, kind);
    }
  }

  /* ----- The tokens of a text ----- */

  /** Each piece of a text is one piece by itself. */
  lemma PieceAlone(lexemes: seq<Lexeme>, i: nat)
    requires Lexed(lexemes) && i < |lexemes|
    ensures lexemes[i].text != "" && LexNext(lexemes[i].text) == Piece(lexemes[i].kind, |lexemes[i].text|)
  {
    hide Lexed, LexNext;
    LexedFrom(lexemes, i);
    LexedUpTo(lexemes[i..], 1);
    var one := lexemes[i..][..1];
    LexedStep(one);
    JoinsNothing();
    assert one[1..] == [] && one[0] == lexemes[i];
    assert lexemes[i].text + "" == lexemes[i].text;
  }

  lemma JoinsNothing()
    ensures SqlLexer.Join([]) == ""
  {
  }

  lemma {:induction false} TokenIsPiece(lexemes: seq<Lexeme>, start: nat, t: Token) returns (i: nat)
    requires t in TokensOf(lexemes, start)
    ensures i < |lexemes| && lexemes[i] == Lexeme(Some(t.kind), t.text)
  {
    var first, rest := lexemes[0], TokensOf(lexemes[1..], start + |lexemes[0].text|);
    if first.kind.Some? && t == Token(first.kind.value, first.text, start, start + |first.text|) {
      i := 0;
    } else {
      assert t in rest;
      i := TokenIsPiece(lexemes[1..], start + |first.text|, t);
      i := i + 1;
    }
  }

  /** Every token of every text has the form of its kind. */
  lemma TokensHaveForm(s: string, t: Token)
    requires Tokens(s).Some? && t in Tokens(s).value
    ensures IsPiece(t.text, Some(t.kind))
  {
    hide IsPiece, LexNext, Lexed;
    var lexemes := Lexemes(s).value;
    LexedAll(s);
    var i := TokenIsPiece(lexemes, 0, t);
    PieceAlone(lexemes, i);
    PiecesExactly(t.text, Some(t.kind));
  }
}
