/** How much of what follows a piece its lexing depends on: at most two characters. */
module SqlLocality {
  import opened Wrappers
  import opened SqlLexer

  lemma {:induction false} SpanLocal(u: string, v: string, w: string, i: nat, class_: Class)
    requires i <= |u| && Span(u + v, i, class_) == |u|
    ensures Span(u + w, i, class_) == |u| <==> w == "" || !In(w[0], class_)
    ensures Span(u + w, i, class_) >= |u|
    decreases |u| - i
  {
    if i < |u| {
      assert (u + v)[i] == u[i] == (u + w)[i];
      SpanLocal(u, v, w, i + 1, class_);
    }
  }

  /** A run that ends inside `u` does not depend on what follows `u`. */
  lemma {:induction false} SpanInside(u: string, v: string, w: string, i: nat, class_: Class)
    requires i <= |u| && Span(u + v, i, class_) < |u|
    ensures Span(u + w, i, class_) == Span(u + v, i, class_)
    decreases |u| - i
  {
    if i < |u| {
      assert (u + v)[i] == u[i] == (u + w)[i];
      if In(u[i], class_) {
        SpanInside(u, v, w, i + 1, class_);
      }
    }
  }

  lemma {:induction false} ScanLocal(u: string, v: string, w: string, i: nat, quote: char)
    requires i <= |u| && ScanQuoted(u + v, i, quote) == Some(|u|) && (w == "" || w[0] != quote)
    ensures ScanQuoted(u + w, i, quote) == Some(|u|)
    decreases |u| - i
  {
    if i < |u| {
      assert (u + v)[i] == u[i] == (u + w)[i];
      if u[i] != quote {
        ScanLocal(u, v, w, i + 1, quote);
      } else if i + 1 < |u| {
        assert (u + v)[i + 1] == u[i + 1] == (u + w)[i + 1];
        if u[i + 1] == quote {
          ScanLocal(u, v, w, i + 2, quote);
        }
      }
    }
  }

  lemma {:induction false} PastLocal(u: string, v: string, w: string, i: nat, c: char)
    requires i <= |u| && Past(u + v, i, c) == Some(|u|)
    ensures Past(u + w, i, c) == Some(|u|)
    decreases |u| - i
  {
    if i < |u| {
      assert (u + v)[i] == u[i] == (u + w)[i];
      if u[i] != c {
        PastLocal(u, v, w, i + 1, c);
      }
    }
  }

  lemma {:induction false} PastCloseLocal(u: string, v: string, w: string, i: nat)
    requires i <= |u| && PastClose(u + v, i) == Some(|u|)
    ensures PastClose(u + w, i) == Some(|u|)
    decreases |u| - i
  {
    if i + 1 < |u| {
      assert (u + v)[i] == u[i] == (u + w)[i] && (u + v)[i + 1] == u[i + 1] == (u + w)[i + 1];
      if !(u[i] == '*' && u[i + 1] == '/') {
        PastCloseLocal(u, v, w, i + 1);
      }
    }
  }

  predicate IsExponentTail(c: char) {
    IsDigit(c) || c == '+' || c == '-'
  }

  /** `w` begins like `v` as far as two characters can matter, or is empty. */
  predicate Alike(v: string, w: string) {
    w == "" || (v != "" && w[0] == v[0] && (|w| == 1 || !IsExponentTail(w[1]) || (|v| > 1 && v[1] == w[1])))
  }

  /** The piece would go on into a following letter. */
  predicate TakesLetter(kind: Option<TokenKind>, u: string) {
    kind == Some(Word) || (kind == Some(Parameter) && u != "" && u[0] != '?') || u in {":", "@", "$"}
  }

  /** A following `?` stops every piece, a following N or S every piece that takes no letter. */
  predicate Breaks(kind: Option<TokenKind>, u: string, w: string) {
    w != "" && (w[0] == '?' || ((w[0] == 'N' || w[0] == 'S') && !TakesLetter(kind, u)))
  }

  /** What may follow a piece in place of `v` without changing it. */
  predicate MayFollow(kind: Option<TokenKind>, u: string, v: string, w: string) {
    Alike(v, w) || Breaks(kind, u, w)
  }

  /** Characters shared by `u + v` and `u + w`. */
  lemma Shared(u: string, v: string, w: string, i: nat)
    requires i < |u|
    ensures (u + v)[i] == u[i] == (u + w)[i]
  {
  }

  lemma Beyond(u: string, v: string, j: nat)
    ensures forall c :: At(u + v, |u| + j, c) <==> At(v, j, c)
    ensures DigitAt(u + v, |u| + j) <==> DigitAt(v, j)
    ensures PartAt(u + v, |u| + j) <==> PartAt(v, j)
  {
  }

  /** The run continues into `w` only if it would have into `v`. */
  lemma RunStops(u: string, v: string, w: string, i: nat, class_: Class)
    requires i <= |u| && Span(u + v, i, class_) == |u| && MayFollow(Some(Number), u, v, w) && !class_.IdentifierParts?
    ensures Span(u + w, i, class_) == |u|
  {
    SpanLocal(u, v, v, i, class_);
    SpanLocal(u, v, w, i, class_);
  }

  lemma ExponentLocal(u: string, v: string, w: string, i: nat)
    requires i <= |u| && ExponentEnd(u + v, i) == |u| && MayFollow(Some(Number), u, v, w)
    ensures ExponentEnd(u + w, i) == |u|
  {
    hide Span;
    if i == |u| {
      Beyond(u, v, 0);
      Beyond(u, v, 1);
      Beyond(u, w, 0);
      Beyond(u, w, 1);
    } else {
      Shared(u, v, w, i);
      Shared(u, v, w, i + 1);
      RunStops(u, v, w, i + 2, Digits);
    }
  }

  lemma FractionLocal(u: string, v: string, w: string, i: nat)
    requires i <= |u| && ExponentEnd(u + v, FractionEnd(u + v, i)) == |u| && MayFollow(Some(Number), u, v, w)
    ensures ExponentEnd(u + w, FractionEnd(u + w, i)) == |u|
  {
    hide Span, ExponentEnd;
    if i == |u| {
      Beyond(u, v, 0);
      Beyond(u, w, 0);
      ExponentLocal(u, v, w, i);
    } else {
      Shared(u, v, w, i);
      var end := FractionEnd(u + v, i);
      if At(u + v, i, '.') {
        if end == |u| {
          RunStops(u, v, w, i + 1, DigitsOrUnderscore);
        } else {
          SpanInside(u, v, w, i + 1, DigitsOrUnderscore);
        }
      }
      ExponentLocal(u, v, w, end);
    }
  }

  lemma NumberLocal(u: string, v: string, w: string)
    requires u != "" && StartsNumber(u + v) && NumberEnd(u + v) == |u| && MayFollow(Some(Number), u, v, w)
    ensures StartsNumber(u + w) && NumberEnd(u + w) == |u|
  {
    hide Span, ExponentEnd, FractionEnd;
    Shared(u, v, w, 0);
    if IsHexPrefix(u + v) {
      Shared(u, v, w, 1);
      RunStops(u, v, w, 2, HexDigits);
    } else {
      var whole := Span(u + v, 0, DigitsOrUnderscore);
      if whole < |u| {
        SpanInside(u, v, w, 0, DigitsOrUnderscore);
      } else {
        RunStops(u, v, w, 0, DigitsOrUnderscore);
      }
      FractionLocal(u, v, w, whole);
      NumberStart(u, v, w);
    }
  }

  lemma NumberStart(u: string, v: string, w: string)
    requires u != "" && StartsNumber(u + v) && NumberEnd(u + v) == |u| && !IsHexPrefix(u + v)
    requires MayFollow(Some(Number), u, v, w)
    ensures StartsNumber(u + w) && !IsHexPrefix(u + w)
  {
    if |u| == 1 {
      Beyond(u, v, 0);
      Beyond(u, w, 0);
    } else {
      Shared(u, v, w, 1);
    }
  }

  /** The second characters of `u + v` and `u + w` agree as far as they select a branch of the lexer. */
  lemma SecondAlike(kind: Option<TokenKind>, u: string, v: string, w: string)
    requires u != "" && LexNext(u + v) == Piece(kind, |u|) && MayFollow(kind, u, v, w)
    ensures |u| > 1 ==> |u + v| > 1 && |u + w| > 1 && (u + v)[1] == (u + w)[1]
    ensures |u| == 1 ==> forall c :: At(u + w, 1, c) <==> At(w, 0, c)
    ensures |u| == 1 ==> forall c :: At(u + v, 1, c) <==> At(v, 0, c)
    ensures |u| == 1 ==> (DigitAt(u + w, 1) <==> DigitAt(w, 0)) && (PartAt(u + w, 1) <==> PartAt(w, 0))
    ensures |u| == 1 ==> (DigitAt(u + v, 1) <==> DigitAt(v, 0)) && (PartAt(u + v, 1) <==> PartAt(v, 0))
  {
    if |u| > 1 {
      Shared(u, v, w, 1);
    } else {
      Beyond(u, v, 0);
      Beyond(u, w, 0);
    }
  }

  lemma SkipLocal(u: string, v: string, w: string)
    requires u != "" && LexNext(u + v) == Piece(None, |u|) && MayFollow(None, u, v, w) && (v == "" ==> w == "")
    ensures LexNext(u + w) == Piece(None, |u|)
  {
    if v == "" {
      assert u + v == u + w;
    } else {
      var c := u[0];
      Shared(u, v, w, 0);
      SecondAlike(None, u, v, w);
      hide Span, Past, PastClose, NumberEnd, ScanQuoted;
      if !IsSpace(c) {
        if c == '-' {
          PastLocal(u, v, w, 2, '\n');
        } else {
          PastCloseLocal(u, v, w, 2);
        }
      }
    }
  }

  lemma QuotedLocal(kind: TokenKind, u: string, v: string, w: string)
    requires kind in {Literal, Blob, Identifier}
    requires u != "" && LexNext(u + v) == Piece(Some(kind), |u|) && MayFollow(Some(kind), u, v, w)
    ensures LexNext(u + w) == Piece(Some(kind), |u|)
  {
    hide Span, Past, PastClose, NumberEnd;
    var c := u[0];
    Shared(u, v, w, 0);
    SecondAlike(Some(kind), u, v, w);
    if c == '[' {
      PastLocal(u, v, w, 1, ']');
    } else {
      var quote := if kind == Identifier then c else '\'';
      var from := if kind == Blob then 2 else 1;
      ScanEnds(u, v, from, quote);
      ScanLocal(u, v, w, from, quote);
    }
  }

  /** Past the close of a quotation stands no further quote. */
  lemma {:induction false} ScanEnds(u: string, v: string, i: nat, quote: char)
    requires i <= |u| && ScanQuoted(u + v, i, quote) == Some(|u|)
    ensures v == "" || v[0] != quote
    decreases |u| - i
  {
    if i < |u| {
      if (u + v)[i] != quote {
        ScanEnds(u, v, i + 1, quote);
      } else if i + 1 < |u + v| && (u + v)[i + 1] == quote {
        ScanEnds(u, v, i + 2, quote);
      } else {
        Beyond(u, v, 0);
      }
    }
  }

  lemma NameLocal(kind: TokenKind, u: string, v: string, w: string)
    requires kind in {Word, Parameter}
    requires u != "" && LexNext(u + v) == Piece(Some(kind), |u|) && MayFollow(Some(kind), u, v, w)
    ensures LexNext(u + w) == Piece(Some(kind), |u|)
  {
    hide Span, Past, PastClose, NumberEnd, ScanQuoted;
    var c := u[0];
    Shared(u, v, w, 0);
    SecondAlike(Some(kind), u, v, w);
    if kind == Word {
      SpanLocal(u, v, v, 1, IdentifierParts);
      SpanLocal(u, v, w, 1, IdentifierParts);
    } else if c == '?' {
      SpanLocal(u, v, v, 1, Digits);
      SpanLocal(u, v, w, 1, Digits);
    } else {
      SpanLocal(u, v, v, 2, IdentifierParts);
      SpanLocal(u, v, w, 2, IdentifierParts);
    }
  }

  lemma SingleLocal(kind: TokenKind, u: string, v: string, w: string)
    requires kind in {Semicolon, Punctuation}
    requires u != "" && LexNext(u + v) == Piece(Some(kind), |u|) && MayFollow(Some(kind), u, v, w)
    ensures LexNext(u + w) == Piece(Some(kind), |u|)
  {
    hide Span, Past, PastClose, NumberEnd, ScanQuoted;
    Shared(u, v, w, 0);
    assert u == [u[0]];
    SecondAlike(Some(kind), u, v, w);
  }

  /** A piece stays what it is when what follows it is replaced by something that may follow. */
  lemma LexLocal(kind: Option<TokenKind>, u: string, v: string, w: string)
    requires u != "" && LexNext(u + v) == Piece(kind, |u|) && MayFollow(kind, u, v, w)
    requires kind.None? && v == "" ==> w == ""
    ensures LexNext(u + w) == Piece(kind, |u|)
  {
    if kind.None? {
      SkipLocal(u, v, w);
    } else if kind.value == Number {
      hide Span, Past, PastClose, NumberEnd, ScanQuoted, StartsNumber;
      Shared(u, v, w, 0);
      SecondAlike(kind, u, v, w);
      NumberLocal(u, v, w);
    } else if kind.value in {Word, Parameter} {
      NameLocal(kind.value, u, v, w);
    } else if kind.value in {Literal, Blob, Identifier} {
      QuotedLocal(kind.value, u, v, w);
    } else {
      SingleLocal(kind.value, u, v, w);
    }
  }

  /** A piece that takes a letter swallows a following N or S. */
  lemma LetterTaken(kind: Option<TokenKind>, u: string, v: string, w: string)
    requires u != "" && LexNext(u + v) == Piece(kind, |u|) && TakesLetter(kind, u)
    requires w != "" && (w[0] == 'N' || w[0] == 'S')
    ensures kind.Some? && LexNext(u + w).Piece? && LexNext(u + w).kind.Some? && LexNext(u + w).len > |u|
  {
    hide Span, Past, PastClose, NumberEnd, ScanQuoted;
    Shared(u, v, w, 0);
    Beyond(u, w, 0);
    if |u| > 1 {
      Shared(u, v, w, 1);
    }
    if kind == Some(Word) {
      SpanLocal(u, v, w, 1, IdentifierParts);
    } else if kind == Some(Parameter) {
      SpanLocal(u, v, w, 2, IdentifierParts);
    }
  }
}
