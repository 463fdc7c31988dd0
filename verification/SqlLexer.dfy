/** packages/db/src/sql-lexer.ts: a small SQLite lexer. */
module SqlLexer {
  import opened Wrappers

  datatype TokenKind = Word | Identifier | Literal | Blob | Number | Parameter | Semicolon | Punctuation

  /** A stretch of source text: a token, or (kind None) one whitespace unit or comment. */
  datatype Lexeme = Lexeme(kind: Option<TokenKind>, text: string)

  /** What the text at hand begins with: `len` units of the given kind, or an unterminated quotation. */
  datatype Next = Piece(kind: Option<TokenKind>, len: nat) | Unterminated

  /* ----- Character classes ----- */

  predicate IsSpace(c: char) {
    || '\t' <= c <= '\r' || c == ' ' || c as int == 0xA0 || c as int == 0x1680
    || 0x2000 <= c as int <= 0x200A || c as int in {0x2028, 0x2029, 0x202F, 0x205F, 0x3000, 0xFEFF}
  }

  predicate IsDigit(c: char) {
    '0' <= c <= '9'
  }

  predicate IsIdentifierStart(c: char) {
    'A' <= c <= 'Z' || 'a' <= c <= 'z' || c == '_' || c as int >= 0x80
  }

  predicate IsIdentifierPart(c: char) {
    IsIdentifierStart(c) || IsDigit(c) || c == '$'
  }

  datatype Class = Digits | DigitsOrUnderscore | HexDigits | IdentifierParts

  predicate In(c: char, class_: Class) {
    match class_
    case Digits => IsDigit(c)
    case DigitsOrUnderscore => IsDigit(c) || c == '_'
    case HexDigits => IsDigit(c) || 'A' <= c <= 'F' || 'a' <= c <= 'f' || c == '_'
    case IdentifierParts => IsIdentifierPart(c)
  }

  /* ----- Scanning ----- */

  /** The end of the run of the class that starts at `i`. */
  function Span(s: string, i: nat, class_: Class): (end: nat)
    requires i <= |s|
    ensures i <= end <= |s|
    decreases |s| - i
  {
    if i < |s| && In(s[i], class_) then Span(s, i + 1, class_) else i
  }

  /** Just past the closing quote for a quotation open before `i`, honouring doubled quotes. */
  function ScanQuoted(s: string, i: nat, quote: char): (end: Option<nat>)
    requires i <= |s|
    ensures end.Some? ==> i < end.value <= |s|
    decreases |s| - i
  {
    if i == |s| then None
    else if s[i] != quote then ScanQuoted(s, i + 1, quote)
    else if i + 1 < |s| && s[i + 1] == quote then ScanQuoted(s, i + 2, quote)
    else Some(i + 1)
  }

  /** Just past the first `c` at or after `i`. */
  function Past(s: string, i: nat, c: char): (end: Option<nat>)
    requires i <= |s|
    ensures end.Some? ==> i < end.value <= |s|
    decreases |s| - i
  {
    if i == |s| then None else if s[i] == c then Some(i + 1) else Past(s, i + 1, c)
  }

  /** Just past the first comment close at or after `i`. */
  function PastClose(s: string, i: nat): (end: Option<nat>)
    requires i <= |s|
    ensures end.Some? ==> i + 1 < end.value <= |s|
    decreases |s| - i
  {
    if i + 1 >= |s| then None
    else if s[i] == '*' && s[i + 1] == '/' then Some(i + 2)
    else PastClose(s, i + 1)
  }

  function OrEnd(end: Option<nat>, s: string): nat {
    if end.Some? then end.value else |s|
  }

  /** sql.charAt(i), as a test: is there such a character, and is it `c`? */
  predicate At(s: string, i: nat, c: char) {
    i < |s| && s[i] == c
  }

  predicate DigitAt(s: string, i: nat) {
    i < |s| && IsDigit(s[i])
  }

  predicate PartAt(s: string, i: nat) {
    i < |s| && IsIdentifierPart(s[i])
  }

  /** The end of the fraction, if any, after digits that end at `i`. */
  function FractionEnd(s: string, i: nat): (end: nat)
    requires i <= |s|
    ensures i <= end <= |s|
  {
    if At(s, i, '.') then Span(s, i + 1, DigitsOrUnderscore) else i
  }

  predicate ExponentAt(s: string, i: nat) {
    && (At(s, i, 'e') || At(s, i, 'E'))
    && (DigitAt(s, i + 1) || At(s, i + 1, '+') || At(s, i + 1, '-'))
  }

  function ExponentEnd(s: string, i: nat): (end: nat)
    requires i <= |s|
    ensures i <= end <= |s|
  {
    if ExponentAt(s, i) then Span(s, i + 2, Digits) else i
  }

  predicate IsHexPrefix(s: string) {
    At(s, 0, '0') && (At(s, 1, 'x') || At(s, 1, 'X'))
  }

  function NumberEnd(s: string): (end: nat)
    requires s != ""
    ensures end <= |s|
  {
    if IsHexPrefix(s) then Span(s, 2, HexDigits)
    else ExponentEnd(s, FractionEnd(s, Span(s, 0, DigitsOrUnderscore)))
  }

  function Quoted(kind: TokenKind, end: Option<nat>): Next {
    if end.Some? then Piece(Some(kind), end.value) else Unterminated
  }

  predicate StartsNumber(s: string) {
    DigitAt(s, 0) || (At(s, 0, '.') && DigitAt(s, 1))
  }

  /** The first piece of a text, by the branches of the source in order. */
  function LexNext(s: string): (r: Next)
    requires s != ""
    ensures r.Piece? ==> 0 < r.len <= |s|
  {
    var c := s[0];
    if IsSpace(c) then Piece(None, 1)
    else if c == '-' && At(s, 1, '-') then Piece(None, OrEnd(Past(s, 2, '\n'), s))
    else if c == '/' && At(s, 1, '*') then Piece(None, OrEnd(PastClose(s, 2), s))
    else if c == '\'' then Quoted(Literal, ScanQuoted(s, 1, '\''))
    else if (c == 'x' || c == 'X') && At(s, 1, '\'') then Quoted(Blob, ScanQuoted(s, 2, '\''))
    else if c == '"' || c == '`' then Quoted(Identifier, ScanQuoted(s, 1, c))
    else if c == '[' then Quoted(Identifier, Past(s, 1, ']'))
    else if StartsNumber(s) then
      NumberNotEmpty(s);
      Piece(Some(Number), NumberEnd(s))
    else if c == '?' then Piece(Some(Parameter), Span(s, 1, Digits))
    else if (c == ':' || c == '@' || c == '$') && PartAt(s, 1) then Piece(Some(Parameter), Span(s, 2, IdentifierParts))
    else if IsIdentifierStart(c) then Piece(Some(Word), Span(s, 1, IdentifierParts))
    else if c == ';' then Piece(Some(Semicolon), 1)
    else Piece(Some(Punctuation), 1)
  }

  lemma NumberNotEmpty(s: string)
    requires s != "" && StartsNumber(s)
    ensures NumberEnd(s) > 0
  {
  }

  /** The whole text, piece by piece; None when some quotation is unterminated. */
  function Lexemes(s: string): (r: Option<seq<Lexeme>>)
    ensures r.Some? ==> Join(r.value) == s
  {
    if s == "" then Some([])
    else
      match LexNext(s)
      case Unterminated => None
      case Piece(kind, len) =>
        var rest := Lexemes(s[len..]);
        if rest.None? then None
        else
          assert s == s[..len] + s[len..];
          Some([Lexeme(kind, s[..len])] + rest.value)
  }

  function Join(lexemes: seq<Lexeme>): string {
    if lexemes == [] then "" else lexemes[0].text + Join(lexemes[1..])
  }

  /* ----- Tokens ----- */

  datatype Token = Token(kind: TokenKind, text: string, start: nat, end: nat)

  /** The tokens among the pieces, with their positions in a text where the pieces begin at `start`. */
  function TokensOf(lexemes: seq<Lexeme>, start: nat): seq<Token> {
    if lexemes == [] then []
    else
      var first, rest := lexemes[0], TokensOf(lexemes[1..], start + |lexemes[0].text|);
      if first.kind.None? then rest
      else [Token(first.kind.value, first.text, start, start + |first.text|)] + rest
  }

  function Tokens(s: string): Option<seq<Token>> {
    if Lexemes(s).Some? then Some(TokensOf(Lexemes(s).value, 0)) else None
  }

  /* ----- Scanning the middle of a text ----- */

  lemma {:induction false} SpanShift(s: string, base: nat, i: nat, class_: Class)
    requires base + i <= |s|
    ensures Span(s, base + i, class_) == base + Span(s[base..], i, class_)
    decreases |s| - base - i
  {
    if base + i < |s| && In(s[base + i], class_) {
      SpanShift(s, base, i + 1, class_);
    }
  }

  lemma {:induction false} ScanShift(s: string, base: nat, i: nat, quote: char)
    requires base + i <= |s|
    ensures ScanQuoted(s, base + i, quote).Some? <==> ScanQuoted(s[base..], i, quote).Some?
    ensures ScanQuoted(s, base + i, quote).Some? ==>
              ScanQuoted(s, base + i, quote).value == base + ScanQuoted(s[base..], i, quote).value
    decreases |s| - base - i
  {
    if base + i < |s| {
      if s[base + i] != quote {
        ScanShift(s, base, i + 1, quote);
      } else if base + i + 1 < |s| && s[base + i + 1] == quote {
        ScanShift(s, base, i + 2, quote);
      }
    }
  }

  lemma {:induction false} PastShift(s: string, base: nat, i: nat, c: char)
    requires base + i <= |s|
    ensures Past(s, base + i, c).Some? <==> Past(s[base..], i, c).Some?
    ensures Past(s, base + i, c).Some? ==> Past(s, base + i, c).value == base + Past(s[base..], i, c).value
    decreases |s| - base - i
  {
    if base + i < |s| && s[base + i] != c {
      PastShift(s, base, i + 1, c);
    }
  }

  lemma {:induction false} PastCloseShift(s: string, base: nat, i: nat)
    requires base + i <= |s|
    ensures PastClose(s, base + i).Some? <==> PastClose(s[base..], i).Some?
    ensures PastClose(s, base + i).Some? ==> PastClose(s, base + i).value == base + PastClose(s[base..], i).value
    decreases |s| - base - i
  {
    if base + i + 1 < |s| && !(s[base + i] == '*' && s[base + i + 1] == '/') {
      PastCloseShift(s, base, i + 1);
    }
  }

  /* ----- tokenizeSql ----- */

  /** The loops `while (end < length && class.test(sql.charAt(end))) end += 1`. */
  method SpanEnd(sql: string, from: nat, class_: Class) returns (end: nat)
    requires from <= |sql|
    ensures end == Span(sql, from, class_)
  {
    end := from;
    while end < |sql| && In(sql[end], class_)
      invariant from <= end <= |sql|
      invariant Span(sql, from, class_) == Span(sql, end, class_)
    {
      end := end + 1;
    }
  }

  method ScanQuotation(sql: string, openIndex: nat, quote: char) returns (end: Option<nat>)
    requires openIndex < |sql|
    ensures end == ScanQuoted(sql, openIndex + 1, quote)
  {
    var index := openIndex + 1;
    while index < |sql|
      invariant openIndex < index <= |sql|
      invariant ScanQuoted(sql, openIndex + 1, quote) == ScanQuoted(sql, index, quote)
    {
      if sql[index] != quote {
        index := index + 1;
      } else if At(sql, index + 1, quote) {
        index := index + 2;
      } else {
        return Some(index + 1);
      }
    }
    return None;
  }

  lemma SameThere(sql: string, index: nat, i: nat)
    requires index + i <= |sql|
    ensures forall c :: At(sql, index + i, c) <==> At(sql[index..], i, c)
    ensures DigitAt(sql, index + i) <==> DigitAt(sql[index..], i)
  {
  }

  method ScanNumber(sql: string, index: nat) returns (end: nat)
    requires index < |sql| && StartsNumber(sql[index..])
    ensures end == index + NumberEnd(sql[index..])
  {
    hide Span, StartsNumber, FractionEnd, ExponentEnd, At;
    SameThere(sql, index, 0);
    SameThere(sql, index, 1);
    if At(sql, index, '0') && (At(sql, index + 1, 'x') || At(sql, index + 1, 'X')) {
      HexRoom(sql, index);
      SpanShift(sql, index, 2, HexDigits);
      end := SpanEnd(sql, index + 2, HexDigits);
    } else {
      SpanShift(sql, index, 0, DigitsOrUnderscore);
      end := SpanEnd(sql, index, DigitsOrUnderscore);
      end := ScanFraction(sql, index, end);
      end := ScanExponent(sql, index, end);
    }
  }

  lemma HexRoom(sql: string, index: nat)
    requires index < |sql| && (At(sql, index + 1, 'x') || At(sql, index + 1, 'X'))
    ensures index + 2 <= |sql|
  {
  }

  method ScanFraction(sql: string, index: nat, from: nat) returns (end: nat)
    requires index <= from <= |sql|
    ensures end == index + FractionEnd(sql[index..], from - index)
  {
    hide Span;
    end := from;
    if At(sql, end, '.') {
      SpanShift(sql, index, from - index + 1, DigitsOrUnderscore);
      end := SpanEnd(sql, end + 1, DigitsOrUnderscore);
    }
  }

  method ScanExponent(sql: string, index: nat, from: nat) returns (end: nat)
    requires index <= from <= |sql|
    ensures end == index + ExponentEnd(sql[index..], from - index)
  {
    hide Span;
    end := from;
    if (At(sql, end, 'e') || At(sql, end, 'E')) && (DigitAt(sql, end + 1) || At(sql, end + 1, '+') || At(sql, end + 1, '-')) {
      SpanShift(sql, index, from - index + 2, Digits);
      end := SpanEnd(sql, end + 2, Digits);
    }
  }

  /** The next piece of the text at `index`, with its end; None when a quotation is unterminated. */
  method NextPiece(sql: string, index: nat) returns (kind: Option<TokenKind>, end: Option<nat>)
    requires index < |sql|
    ensures end.None? <==> LexNext(sql[index..]).Unterminated?
    ensures end.Some? ==> end.value >= index && LexNext(sql[index..]) == Piece(kind, end.value - index)
  {
    hide Span, ScanQuoted, Past, PastClose, NumberEnd, StartsNumber, IsSpace, IsIdentifierStart;
    ghost var s := sql[index..];
    var c := sql[index];
    if IsSpace(c) {
      return None, Some(index + 1);
    }
    if c == '-' && At(sql, index + 1, '-') {
      PastShift(sql, index, 2, '\n');
      return None, Some(OrEnd(Past(sql, index + 2, '\n'), sql));
    }
    if c == '/' && At(sql, index + 1, '*') {
      PastCloseShift(sql, index, 2);
      return None, Some(OrEnd(PastClose(sql, index + 2), sql));
    }
    if c == '\'' {
      ScanShift(sql, index, 1, '\'');
      end := ScanQuotation(sql, index, '\'');
      return Some(Literal), end;
    }
    if (c == 'x' || c == 'X') && At(sql, index + 1, '\'') {
      ScanShift(sql, index, 2, '\'');
      end := ScanQuotation(sql, index + 1, '\'');
      return Some(Blob), end;
    }
    if c == '"' || c == '`' {
      ScanShift(sql, index, 1, c);
      end := ScanQuotation(sql, index, c);
      return Some(Identifier), end;
    }
    if c == '[' {
      PastShift(sql, index, 1, ']');
      return Some(Identifier), Past(sql, index + 1, ']');
    }
    StartsNumberHere(sql, index);
    if IsDigit(c) || (c == '.' && DigitAt(sql, index + 1)) {
      var stop := ScanNumber(sql, index);
      return Some(Number), Some(stop);
    }
    if c == '?' {
      SpanShift(sql, index, 1, Digits);
      var stop := SpanEnd(sql, index + 1, Digits);
      return Some(Parameter), Some(stop);
    }
    if (c == ':' || c == '@' || c == '$') && PartAt(sql, index + 1) {
      SpanShift(sql, index, 2, IdentifierParts);
      var stop := SpanEnd(sql, index + 2, IdentifierParts);
      return Some(Parameter), Some(stop);
    }
    if IsIdentifierStart(c) {
      SpanShift(sql, index, 1, IdentifierParts);
      var stop := SpanEnd(sql, index + 1, IdentifierParts);
      return Some(Word), Some(stop);
    }
    if c == ';' {
      return Some(Semicolon), Some(index + 1);
    }
    return Some(Punctuation), Some(index + 1);
  }

  lemma StartsNumberHere(sql: string, index: nat)
    requires index < |sql|
    ensures StartsNumber(sql[index..]) <==> IsDigit(sql[index]) || (sql[index] == '.' && DigitAt(sql, index + 1))
  {
  }

  lemma TokensStep(sql: string, index: nat, kind: Option<TokenKind>, end: nat)
    requires index < end <= |sql| && LexNext(sql[index..]) == Piece(kind, end - index)
    ensures Lexemes(sql[index..]).Some? <==> Lexemes(sql[end..]).Some?
    ensures Lexemes(sql[index..]).Some? ==>
              TokensOf(Lexemes(sql[index..]).value, index)
              == (if kind.Some? then [Token(kind.value, sql[index..end], index, end)] else [])
                 + TokensOf(Lexemes(sql[end..]).value, end)
  {
    hide LexNext;
    assert sql[index..][end - index..] == sql[end..];
    assert sql[index..][..end - index] == sql[index..end];
    if Lexemes(sql[end..]).Some? {
      var rest := Lexemes(sql[end..]).value;
      var all := [Lexeme(kind, sql[index..end])] + rest;
      assert all[1..] == rest;
    }
  }

  /** Splits SQL into tokens, dropping whitespace and comments; None where the source throws. */
  method TokenizeSql(sql: string) returns (tokens: Option<seq<Token>>)
    ensures tokens == Tokens(sql)
  {
    hide LexNext, Lexemes, TokensOf;
    var found: seq<Token> := [];
    var index := 0;
    assert sql[0..] == sql;
    while index < |sql|
      invariant 0 <= index <= |sql|
      invariant Lexemes(sql).Some? <==> Lexemes(sql[index..]).Some?
      invariant Lexemes(sql).Some? ==> TokensOf(Lexemes(sql).value, 0) == found + TokensOf(Lexemes(sql[index..]).value, index)
      decreases |sql| - index
    {
      var kind, end := NextPiece(sql, index);
      if end.None? {
        UnterminatedFails(sql[index..]);
        return None;
      }
      TokensStep(sql, index, kind, end.value);
      if kind.Some? {
        found := found + [Token(kind.value, sql[index..end.value], index, end.value)];
      }
      index := end.value;
    }
    NothingLeft(sql, index);
    assert found + [] == found;
    return Some(found);
  }

  lemma UnterminatedFails(s: string)
    requires s != "" && LexNext(s).Unterminated?
    ensures Lexemes(s).None?
  {
  }

  lemma NothingLeft(sql: string, index: nat)
    requires index == |sql|
    ensures Lexemes(sql[index..]) == Some([]) && TokensOf([], index) == []
  {
  }
}
