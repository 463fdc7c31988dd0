/** Canonical texts have no lone surrogate, so their UTF-8 bytes tell them apart. */
module CanonicalBytes {
  import opened Wrappers
  import opened Utf16
  import opened CanonicalJson
  import CanonicalUnique
  import Utf8

  lemma ConcatWellFormed(a: Text, b: Text)
    requires WellFormed(a) && WellFormed(b)
    ensures WellFormed(a + b)
  {
    forall i | 0 <= i < |a + b|
      ensures PairedAt(a + b, i)
    {
      if i < |a| {
        assert PairedAt(a, i);
      } else {
        assert PairedAt(b, i - |a|);
      }
    }
  }

  lemma PlainWellFormed(text: Text)
    requires forall i :: 0 <= i < |text| ==> !IsHighSurrogate(text[i]) && !IsLowSurrogate(text[i])
    ensures WellFormed(text)
  {
  }

  lemma {:induction false} EscapeAllWellFormed(text: Text)
    requires WellFormed(text)
    ensures WellFormed(EscapeAll(text))
    decreases |text|
  {
    if text != [] {
      var n := Utf8.HeadLength(text);
      Utf8.RestWellFormed(text);
      EscapeAllWellFormed(text[n..]);
      HeadEscaped(text);
      var head := EscapeAll(text[..n]);
      ConcatWellFormed(head, EscapeAll(text[n..]));
    }
  }

  /** The first character, of one unit or two, is escaped as a whole. */
  lemma HeadEscaped(text: Text)
    requires WellFormed(text) && text != []
    ensures var n := Utf8.HeadLength(text);
            WellFormed(EscapeAll(text[..n])) && EscapeAll(text) == EscapeAll(text[..n]) + EscapeAll(text[n..])
  {
    hide WellFormed;
    Utf8.RestWellFormed(text);
    var n := Utf8.HeadLength(text);
    var head := text[..n];
    if n == 1 {
      assert head == [text[0]];
      assert EscapeAll(head) == Escape(text[0]) + [] == Escape(text[0]);
      PlainWellFormed(Escape(text[0]));
    } else {
      assert head == [text[0]] + [text[1]];
      assert head[1..] == [text[1]];
      assert EscapeAll([text[1]]) == [text[1]] + [] == [text[1]];
      assert EscapeAll(head) == [text[0]] + [text[1]];
      PairWellFormed(text[0], text[1]);
      assert text[1..][1..] == text[2..];
      assert EscapeAll(text[1..]) == [text[1]] + EscapeAll(text[2..]);
      assert [text[0]] + ([text[1]] + EscapeAll(text[2..])) == [text[0]] + [text[1]] + EscapeAll(text[2..]);
    }
  }

  lemma PairWellFormed(high: CodeUnit, low: CodeUnit)
    requires IsHighSurrogate(high) && IsLowSurrogate(low)
    ensures WellFormed([high] + [low])
  {
  }

  lemma QuotedWellFormed(text: Text)
    requires WellFormed(text)
    ensures WellFormed(Quoted(text))
  {
    hide WellFormed;
    EscapeAllWellFormed(text);
    PlainWellFormed([QUOTE]);
    ConcatWellFormed([QUOTE], EscapeAll(text));
    ConcatWellFormed([QUOTE] + EscapeAll(text), [QUOTE]);
  }

  lemma {:induction false} JoinWellFormed(texts: seq<Text>)
    requires forall i :: 0 <= i < |texts| ==> WellFormed(texts[i])
    ensures WellFormed(Join(texts))
  {
    hide WellFormed;
    if |texts| > 1 {
      PlainWellFormed([COMMA]);
      JoinWellFormed(texts[1..]);
      ConcatWellFormed(texts[0], [COMMA]);
      ConcatWellFormed(texts[0] + [COMMA], Join(texts[1..]));
    } else {
      PlainWellFormed([]);
    }
  }

  lemma ListWellFormed(open: CodeUnit, texts: seq<Text>, close: CodeUnit)
    requires !IsHighSurrogate(open) && !IsLowSurrogate(open) && !IsHighSurrogate(close) && !IsLowSurrogate(close)
    requires forall i :: 0 <= i < |texts| ==> WellFormed(texts[i])
    ensures WellFormed([open] + Join(texts) + [close])
  {
    hide WellFormed, Join;
    PlainWellFormed([open]);
    PlainWellFormed([close]);
    JoinWellFormed(texts);
    ConcatWellFormed([open], Join(texts));
    ConcatWellFormed([open] + Join(texts), [close]);
  }

  /** The canonical text of a value has no lone surrogate. */
  lemma {:induction false} EncodeWellFormed(v: Value, d: nat)
    requires Encode(v, d).Some?
    ensures WellFormed(Encode(v, d).value)
    decreases v, 1, 0
  {
    hide WellFormed, Join, EncodeItems, EncodeEntries, Entries, Quoted;
    if v.Str? {
      QuotedWellFormed(v.text);
    } else if v.Arr? {
      ItemsWellFormed(v.items, d + 1);
      ListWellFormed(OPEN_BRACKET, EncodeItems(v.items, d + 1).value, CLOSE_BRACKET);
    } else if v.Obj? {
      EntriesHold(v.members);
      EntriesWellFormed(v, Entries(v.members), d + 1);
      ListWellFormed(OPEN_BRACE, EncodeEntries(v, Entries(v.members), d + 1).value, CLOSE_BRACE);
    } else {
      PlainWellFormed(Encode(v, d).value);
    }
  }

  lemma {:induction false} ItemsWellFormed(items: seq<Value>, d: nat)
    requires EncodeItems(items, d).Some?
    ensures forall i :: 0 <= i < |EncodeItems(items, d).value| ==> WellFormed(EncodeItems(items, d).value[i])
    decreases items
  {
    hide WellFormed, Encode;
    if items != [] {
      EncodeWellFormed(items[0], d);
      ItemsWellFormed(items[1..], d);
    }
  }

  lemma {:induction false} EntriesWellFormed(v: Value, entries: seq<Member>, d: nat)
    requires v.Obj? && forall m :: m in entries ==> m in v.members
    requires EncodeEntries(v, entries, d).Some?
    ensures forall i :: 0 <= i < |EncodeEntries(v, entries, d).value| ==>
                          WellFormed(EncodeEntries(v, entries, d).value[i])
    decreases v, 0, |entries|
  {
    hide WellFormed, Encode, Quoted;
    if entries != [] {
      var m := entries[0];
      assert m in v.members;
      EncodeWellFormed(m.value, d);
      QuotedWellFormed(m.key);
      PlainWellFormed([COLON]);
      ConcatWellFormed(Quoted(m.key), [COLON]);
      ConcatWellFormed(Quoted(m.key) + [COLON], Encode(m.value, d).value);
      EntriesWellFormed(v, entries[1..], d);
    }
  }

  /** The bytes hashed or bound for a value, unless it is refused. */
  function CanonicalUtf8(v: Value): Option<seq<Utf8.Byte>> {
    var text := Canonical(v);
    if text.None? then None else Some(Utf8.Bytes(text.value))
  }

  /** Two accepted values have the same bytes exactly when they are the same. */
  lemma BytesAreUnique(v: Value, w: Value)
    requires WellKeyed(v) && WellKeyed(w) && CanonicalUtf8(v).Some? && CanonicalUtf8(w).Some?
    ensures CanonicalUtf8(v) == CanonicalUtf8(w) <==> Same(v, w)
  {
    hide Encode, Same, WellFormed, WellKeyed;
    CanonicalUnique.CanonicalIsUnique(v, w);
    if CanonicalUtf8(v) == CanonicalUtf8(w) {
      EncodeWellFormed(v, 0);
      EncodeWellFormed(w, 0);
      Utf8.BytesTell(Canonical(v).value, Canonical(w).value);
    }
  }
}
