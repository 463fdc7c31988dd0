/** packages/search/src/snippet.ts: the window around a match, collapsed, with its highlights. */
module Snippets {
  import opened Wrappers
  import opened Utf16
  import opened Matching
  import opened HighlightRanges

  /* ----- Collapsing white space ----- */

  const SPACE: CodeUnit := 0x20

  predicate EndsWithSpace(s: Text) {
    s != [] && s[|s| - 1] == SPACE
  }

  /** The output after the units of `s`: white space adds one space at most, and none at the front. */
  function Squeeze(s: Text): Text {
    if s == [] then []
    else
      var before, unit := Squeeze(s[..|s| - 1]), s[|s| - 1];
      if !IsWhitespace(unit) then before + [unit]
      else if before != [] && !EndsWithSpace(before) then before + [SPACE]
      else before
  }

  function Collapse(s: Text): Text {
    var all := Squeeze(s);
    if EndsWithSpace(all) then all[..|all| - 1] else all
  }

  /** The runs of units that are not white space. */
  function Words(s: Text): seq<Text> {
    if s == [] then []
    else
      var before, unit := Words(s[..|s| - 1]), s[|s| - 1];
      if IsWhitespace(unit) then before
      else if before == [] || IsWhitespace(s[|s| - 2]) then before + [[unit]]
      else before[..|before| - 1] + [before[|before| - 1] + [unit]]
  }

  /** Words with one space between them. */
  function JoinWords(words: seq<Text>): Text {
    if words == [] then []
    else if |words| == 1 then words[0]
    else JoinWords(words[..|words| - 1]) + [SPACE] + words[|words| - 1]
  }

  lemma {:induction false} WordsAreWords(s: Text)
    ensures forall i :: 0 <= i < |Words(s)| ==> Words(s)[i] != []
    ensures forall i, j :: 0 <= i < |Words(s)| && 0 <= j < |Words(s)[i]| ==> !IsWhitespace(Words(s)[i][j])
  {
    if s != [] {
      WordsAreWords(s[..|s| - 1]);
    }
  }

  lemma JoinPush(words: seq<Text>, word: Text)
    ensures JoinWords(words + [word]) == if words == [] then word else JoinWords(words) + [SPACE] + word
  {
    assert (words + [word])[..|words|] == words;
  }

  lemma JoinGrow(words: seq<Text>, word: Text, unit: CodeUnit)
    ensures JoinWords(words + [word + [unit]]) == JoinWords(words + [word]) + [unit]
  {
    JoinPush(words, word);
    JoinPush(words, word + [unit]);
  }

  lemma JoinEnds(words: seq<Text>)
    requires words != [] && words[|words| - 1] != []
    ensures JoinWords(words) != [] && JoinWords(words)[|JoinWords(words)| - 1] == words[|words| - 1][|words[|words| - 1]| - 1]
  {
  }

  predicate AfterSpace(s: Text) {
    s != [] && IsWhitespace(s[|s| - 1])
  }

  /** What the output is after some words, and white space or not. */
  function Written(words: seq<Text>, white: bool): Text {
    JoinWords(words) + if white && words != [] then [SPACE] else []
  }

  lemma WrittenEnds(words: seq<Text>, white: bool)
    requires forall i :: 0 <= i < |words| ==> words[i] != []
    requires forall i, j :: 0 <= i < |words| && 0 <= j < |words[i]| ==> !IsWhitespace(words[i][j])
    ensures Written(words, white) == [] <==> words == []
    ensures EndsWithSpace(Written(words, white)) <==> white && words != []
  {
    if words != [] {
      JoinEnds(words);
      var last := words[|words| - 1];
      assert !IsWhitespace(last[|last| - 1]);
    }
  }

  lemma WriteUnit(words: seq<Text>, white: bool, unit: CodeUnit)
    ensures white || words == [] ==> Written(words + [[unit]], false) == Written(words, white) + [unit]
    ensures !white && words != [] ==>
              Written(words[..|words| - 1] + [words[|words| - 1] + [unit]], false) == Written(words, white) + [unit]
  {
    if words == [] {
      assert [] + [[unit]] == [[unit]];
    } else {
      var some, last := words[..|words| - 1], words[|words| - 1];
      assert words == some + [last];
      JoinPush(words, [unit]);
      JoinGrow(some, last, unit);
    }
  }

  lemma WriteSpace(words: seq<Text>, white: bool)
    ensures Written(words, true) == if words != [] && !white then Written(words, white) + [SPACE] else Written(words, white)
  {
  }

  /** What has been put out is the words so far, and a space when white space follows them. */
  lemma {:induction false} SqueezeIsWords(s: Text)
    ensures Squeeze(s) == Written(Words(s), AfterSpace(s))
    ensures !AfterSpace(s) && s != [] ==> Words(s) != []
  {
    hide IsWhitespace, JoinWords, Written, EndsWithSpace;
    if s == [] {
      NothingWritten();
    } else {
      var front, unit := s[..|s| - 1], s[|s| - 1];
      SqueezeIsWords(front);
      WordsAreWords(front);
      WrittenEnds(Words(front), AfterSpace(front));
      if IsWhitespace(unit) {
        WriteSpace(Words(front), AfterSpace(front));
      } else {
        WriteUnit(Words(front), AfterSpace(front), unit);
      }
    }
  }

  lemma NothingWritten()
    ensures Written([], false) == []
  {
  }

  /** Collapsing leaves the words, with single spaces between them. */
  lemma CollapseIsWords(s: Text)
    ensures Collapse(s) == JoinWords(Words(s))
  {
    hide IsWhitespace, Squeeze, Words;
    SqueezeIsWords(s);
    WordsAreWords(s);
    WrittenEnds(Words(s), AfterSpace(s));
    var joined := JoinWords(Words(s));
    if EndsWithSpace(Squeeze(s)) {
      assert (joined + [SPACE])[..|joined|] == joined;
    }
  }

  lemma {:induction false} SqueezeFromWord(a: Text, b: Text)
    requires b != [] && !IsWhitespace(b[0])
    ensures Squeeze(a + b) == Squeeze(a) + Squeeze(b) && Squeeze(b) != []
    decreases |b|
  {
    var front := b[..|b| - 1];
    assert (a + b)[..|a + b| - 1] == a + front;
    if front == [] {
      assert a + front == a && Squeeze(front) == [];
    } else {
      SqueezeFromWord(a, front);
    }
  }

  lemma {:induction false} SqueezeGrows(s: Text, n: nat)
    requires n <= |s|
    ensures Squeeze(s[..n]) <= Squeeze(s)
    decreases |s| - n
  {
    if n < |s| {
      SqueezeGrows(s, n + 1);
      assert s[..n + 1][..n] == s[..n];
    } else {
      assert s[..n] == s;
    }
  }

  lemma SqueezeWordEnd(s: Text)
    requires s != [] && !IsWhitespace(s[|s| - 1])
    ensures |Squeeze(s)| == |Squeeze(s[..|s| - 1])| + 1 && !EndsWithSpace(Squeeze(s)) && Collapse(s) == Squeeze(s)
  {
  }

  /* ----- The window ----- */

  /** Words in order that do not overlap and neither begin nor end with white space. */
  ghost predicate TokensOk(text: Text, tokens: seq<Token>) {
    && (forall i :: 0 <= i < |tokens| ==>
                      && tokens[i].start < tokens[i].end <= |text|
                      && !IsWhitespace(text[tokens[i].start]) && !IsWhitespace(text[tokens[i].end - 1]))
    && (forall i, j :: 0 <= i < j < |tokens| ==> tokens[i].end <= tokens[j].start)
  }

  /** tokens.find(token => token.start >= position), or `otherwise` when it starts later or is missing. */
  function WordFrom(tokens: seq<Token>, position: nat, otherwise: nat): (at: nat)
    ensures at <= otherwise && (position <= otherwise ==> position <= at)
  {
    if tokens == [] then otherwise
    else if tokens[0].start >= position then if tokens[0].start <= otherwise then tokens[0].start else otherwise
    else WordFrom(tokens[1..], position, otherwise)
  }

  /** The end of the last word inside the window, if it lies after the anchor; otherwise `end`. */
  function LastWordEnd(tokens: seq<Token>, begin: nat, end: nat): Option<nat> {
    if tokens == [] then None
    else
      var last := tokens[|tokens| - 1];
      if last.start >= begin && last.end <= end then Some(last.end) else LastWordEnd(tokens[..|tokens| - 1], begin, end)
  }

  datatype Window = Window(begin: nat, end: nat)

  /** A third of the window before the anchor. */
  function Earlier(anchor: nat, maxChars: nat): nat {
    if anchor >= maxChars / 3 then anchor - maxChars / 3 else 0
  }

  function WindowOf(tokens: seq<Token>, length: nat, anchor: nat, maxChars: nat): Window {
    if length <= maxChars then Window(0, length)
    else
      var early := Earlier(anchor, maxChars);
      var begin := if early > 0 then WordFrom(tokens, early, anchor) else 0;
      if begin + maxChars < length then
        var end := begin + maxChars;
        var last := LastWordEnd(tokens, begin, end);
        Window(begin, if last.Some? && last.value > anchor then last.value else end)
      else
        var pulled := length - maxChars;
        Window(if pulled < begin then WordFrom(tokens, pulled, begin) else begin, length)
  }

  lemma {:induction false} LastWordEndWithin(tokens: seq<Token>, begin: nat, end: nat)
    ensures LastWordEnd(tokens, begin, end).Some? ==> LastWordEnd(tokens, begin, end).value <= end
  {
    if tokens != [] {
      LastWordEndWithin(tokens[..|tokens| - 1], begin, end);
    }
  }

  /** The window is within the limit and holds the anchor. */
  lemma WindowHoldsAnchor(tokens: seq<Token>, length: nat, anchor: nat, maxChars: nat)
    requires anchor <= length
    ensures var w := WindowOf(tokens, length, anchor, maxChars);
            && w.begin <= anchor <= w.end <= length
            && w.end - w.begin <= maxChars
            && (maxChars > 0 && anchor < length ==> anchor < w.end)
            && (length <= maxChars ==> w == Window(0, length))
  {
    hide WordFrom, LastWordEnd;
    if length > maxChars {
      var early := Earlier(anchor, maxChars);
      var begin := if early > 0 then WordFrom(tokens, early, anchor) else 0;
      LastWordEndWithin(tokens, begin, begin + maxChars);
    }
  }

  /* ----- The anchor ----- */

  /** The first phrase match, or else the first match, or else the beginning. */
  ghost predicate IsAnchor(tokens: seq<Token>, query: Query, ranges: seq<Range>, anchor: nat) {
    if HasPhrase(tokens, query) then
      exists p, s :: 0 <= p < |query.phrases| && PhraseAt(tokens, query.phrases[p], s) && anchor == tokens[s].start
                     && forall q, t :: 0 <= q < |query.phrases| && PhraseAt(tokens, query.phrases[q], t) ==> s <= t
    else anchor == if ranges == [] then 0 else ranges[0].start
  }

  ghost predicate HasPhrase(tokens: seq<Token>, query: Query) {
    exists p, s :: 0 <= p < |query.phrases| && PhraseAt(tokens, query.phrases[p], s)
  }

  ghost predicate PhraseAt(tokens: seq<Token>, phrase: seq<Text>, s: int) {
    phrase != [] && OccursAt(phrase, Terms(tokens), false, s)
  }

  method FindAnchor(tokens: seq<Token>, query: Query, ranges: seq<Range>) returns (anchor: nat)
    ensures IsAnchor(tokens, query, ranges, anchor)
  {
    hide TermFits;
    var starts: seq<int> := [];
    for p := 0 to |query.phrases|
      invariant forall s :: s in starts <==> exists q :: 0 <= q < p && PhraseAt(tokens, query.phrases[q], s)
    {
      var found := PhraseOccurrences(query.phrases[p], Terms(tokens), false);
      starts := starts + found;
    }
    if HasPhrase(tokens, query) {
      ghost var p, s :| 0 <= p < |query.phrases| && PhraseAt(tokens, query.phrases[p], s);
      assert s in starts;
    }
    if starts == [] {
      return if ranges == [] then 0 else ranges[0].start;
    }
    var first := starts[0];
    for i := 0 to |starts|
      invariant first in starts && forall k :: 0 <= k < i ==> first <= starts[k]
    {
      if starts[i] < first {
        first := starts[i];
      }
    }
    forall q, t | 0 <= q < |query.phrases| && PhraseAt(tokens, query.phrases[q], t)
      ensures first <= t
    {
      assert t in starts;
    }
    anchor := tokens[first].start;
  }

  /* ----- Highlights ----- */

  /** The ranges that lie wholly in the window. */
  function Inside(ranges: seq<Range>, w: Window): seq<Range> {
    if ranges == [] then []
    else
      var before, last := Inside(ranges[..|ranges| - 1], w), ranges[|ranges| - 1];
      if last.start < w.begin || last.end > w.end then before else before + [last]
  }

  function OutputLength(source: Text, n: int): nat {
    if 0 <= n <= |source| then |Squeeze(source[..n])| else 0
  }

  /** A range of the source in the collapsed text: from its first unit's place to just after its last unit's. */
  function Mapped(source: Text, w: Window, output: Text, r: Range): Range {
    var finish := OutputLength(source, r.end - 1 - w.begin) + 1;
    Range(OutputLength(source, r.start - w.begin), if finish <= |output| then finish else |output|)
  }

  datatype Options = Options(rules: MatchRules, maxChars: nat, maxHighlights: nat, precededByText: bool, followedByText: bool)

  datatype Snippet = Snippet(text: Text, highlights: seq<Range>, truncatedStart: bool, truncatedEnd: bool)

  function FirstOf(ranges: seq<Range>, max: nat): seq<Range> {
    if max < |ranges| then ranges[..max] else ranges
  }

  /** The loop stops after the range that reaches the limit, so one is shown even at a limit of 0. */
  function ShownLimit(maxHighlights: nat): nat {
    if maxHighlights == 0 then 1 else maxHighlights
  }

  lemma SourceIsWord(source: Text, i: nat, j: nat)
    requires i < j <= |source| && !IsWhitespace(source[i]) && !IsWhitespace(source[j - 1])
    ensures var output := Collapse(source);
            var start, finish := OutputLength(source, i), OutputLength(source, j - 1) + 1;
            && start < finish <= |output| && finish == OutputLength(source, j)
            && output[start..finish] == Collapse(source[i..j])
  {
    hide IsWhitespace, Squeeze;
    var piece := source[i..j];
    assert source[..j] == source[..i] + piece;
    SqueezeFromWord(source[..i], piece);
    assert source[..j][..j - 1] == source[..j - 1];
    SqueezeWordEnd(source[..j]);
    SqueezeWordEnd(piece);
    SqueezeGrows(source, j);
    var all, upTo := Squeeze(source), Squeeze(source[..j]);
    assert upTo == all[..|upTo|];
    CollapseKeeps(all, upTo);
    var output := Collapse(source);
    assert output[..|upTo|] == upTo;
    assert upTo[OutputLength(source, i)..] == Squeeze(piece);
  }

  /** Dropping a last space does not touch a part that ends in no space. */
  lemma CollapseKeeps(all: Text, part: Text)
    requires part <= all && part != [] && !EndsWithSpace(part)
    ensures var output := if EndsWithSpace(all) then all[..|all| - 1] else all;
            |part| <= |output| && output[..|part|] == part
  {
    if EndsWithSpace(all) {
      assert part != all;
      ProperPrefix(part, all);
    }
  }

  lemma ProperPrefix(part: Text, all: Text)
    requires part <= all && part != all
    ensures |part| < |all|
  {
  }

  lemma SliceOfSlice(text: Text, begin: nat, end: nat, i: nat, j: nat)
    requires begin <= end <= |text| && i <= j <= end - begin
    ensures text[begin..end][i..j] == text[begin + i..begin + j]
    ensures forall k :: 0 <= k < end - begin ==> text[begin..end][k] == text[begin + k]
  {
    var inner, outer := text[begin..end][i..j], text[begin + i..begin + j];
    assert |inner| == |outer|;
    forall k | 0 <= k < |inner|
      ensures inner[k] == outer[k]
    {
      assert inner[k] == text[begin..end][i + k] == text[begin + (i + k)];
      assert outer[k] == text[begin + i + k];
    }
    assert inner == outer;
  }

  /** A range of words of the text. */
  ghost predicate IsWordRange(text: Text, r: Range) {
    r.start < r.end <= |text| && !IsWhitespace(text[r.start]) && !IsWhitespace(text[r.end - 1])
  }

  /** One highlight shows exactly the collapsed text of its range. */
  lemma HighlightShowsRange(text: Text, w: Window, r: Range)
    requires w.begin <= r.start && r.end <= w.end <= |text| && IsWordRange(text, r)
    ensures var output := Collapse(text[w.begin..w.end]);
            var h := Mapped(text[w.begin..w.end], w, output, r);
            && h.start < h.end <= |output| && output[h.start..h.end] == Collapse(text[r.start..r.end])
            && h.end == OutputLength(text[w.begin..w.end], r.end - w.begin)
  {
    hide Squeeze, Collapse;
    var source := text[w.begin..w.end];
    var i, j := r.start - w.begin, r.end - w.begin;
    SliceOfSlice(text, w.begin, w.end, i, j);
    assert source[i] == text[w.begin + i] && source[j - 1] == text[w.begin + (j - 1)];
    SourceIsWord(source, i, j);
  }

  lemma {:induction false} OutputGrows(source: Text, m: nat, n: nat)
    requires m <= n <= |source|
    ensures OutputLength(source, m) <= OutputLength(source, n)
  {
    SqueezeGrows(source[..n], m);
    assert source[..n][..m] == source[..m];
  }

  lemma {:induction false} InsideHolds(ranges: seq<Range>, w: Window)
    ensures forall r :: r in Inside(ranges, w) <==> r in ranges && w.begin <= r.start && r.end <= w.end
  {
    if ranges != [] {
      var front, last := ranges[..|ranges| - 1], ranges[|ranges| - 1];
      InsideHolds(front, w);
      assert ranges == front + [last];
    }
  }

  lemma SeparatePush(front: seq<Range>, last: Range)
    requires Separate(front) && last.start < last.end && forall r :: r in front ==> r.end <= last.start
    ensures Separate(front + [last])
  {
  }

  lemma SeparateFront(ranges: seq<Range>)
    requires ranges != [] && Separate(ranges)
    ensures Separate(ranges[..|ranges| - 1])
    ensures forall r :: r in ranges[..|ranges| - 1] ==> r.end <= ranges[|ranges| - 1].start
  {
  }

  lemma {:induction false} InsideSeparate(ranges: seq<Range>, w: Window)
    requires Separate(ranges)
    ensures Separate(Inside(ranges, w))
  {
    if ranges != [] {
      var front, last := ranges[..|ranges| - 1], ranges[|ranges| - 1];
      assert last.start < last.end;
      SeparateFront(ranges);
      hide Separate;
      InsideSeparate(front, w);
      InsideHolds(front, w);
      SeparatePush(Inside(front, w), last);
    }
  }

  /** The snippet of a text around an anchor, with the ranges to highlight. */
  function SnippetOf(text: Text, tokens: seq<Token>, ranges: seq<Range>, anchor: nat, options: Options): Snippet {
    var w := WindowOf(tokens, |text|, anchor, options.maxChars);
    if w.begin <= w.end <= |text| then
      var source := text[w.begin..w.end];
      var output := Collapse(source);
      var shown := FirstOf(Inside(ranges, w), ShownLimit(options.maxHighlights));
      Snippet(output, seq(|shown|, i requires 0 <= i < |shown| => Mapped(source, w, output, shown[i])),
              w.begin > 0 || options.precededByText, w.end < |text| || options.followedByText)
    else Snippet([], [], false, false)
  }

  /** The highlight shows the words of the range. */
  ghost predicate Shows(text: Text, output: Text, h: Range, r: Range) {
    && r.start <= r.end <= |text| && h.start < h.end <= |output|
    && output[h.start..h.end] == JoinWords(Words(text[r.start..r.end]))
  }

  lemma HighlightsShow(text: Text, w: Window, shown: seq<Range>, output: Text, highlights: seq<Range>)
    requires w.begin <= w.end <= |text| && output == Collapse(text[w.begin..w.end]) && |highlights| == |shown|
    requires forall i :: 0 <= i < |shown| ==> highlights[i] == Mapped(text[w.begin..w.end], w, output, shown[i])
    requires forall r :: r in shown ==> IsWordRange(text, r) && w.begin <= r.start && r.end <= w.end
    requires Separate(shown)
    ensures Separate(highlights) && forall i :: 0 <= i < |shown| ==> Shows(text, output, highlights[i], shown[i])
  {
    hide Collapse, Squeeze, Words, JoinWords, IsWhitespace, Mapped, OutputLength;
    var source := text[w.begin..w.end];
    forall i | 0 <= i < |shown|
      ensures Shows(text, output, highlights[i], shown[i])
      ensures highlights[i].end == OutputLength(source, shown[i].end - w.begin)
      ensures highlights[i].start == OutputLength(source, shown[i].start - w.begin)
    {
      assert shown[i] in shown;
      HighlightShowsRange(text, w, shown[i]);
      CollapseIsWords(text[shown[i].start..shown[i].end]);
      MappedStart(source, w, output, shown[i]);
    }
    forall i, j | 0 <= i < j < |shown|
      ensures highlights[i].end <= highlights[j].start
    {
      assert shown[i] in shown && shown[j] in shown;
      OutputGrows(source, shown[i].end - w.begin, shown[j].start - w.begin);
    }
  }

  lemma MappedStart(source: Text, w: Window, output: Text, r: Range)
    ensures Mapped(source, w, output, r).start == OutputLength(source, r.start - w.begin)
  {
  }

  /**
   * The snippet is the window's words with single spaces between them; its highlights lie in it, in
   * order and apart, and each shows the words of the first ranges inside the window.
   */
  lemma SnippetShowsWindow(text: Text, tokens: seq<Token>, ranges: seq<Range>, anchor: nat, options: Options)
    requires anchor <= |text| && Separate(ranges) && forall r :: r in ranges ==> IsWordRange(text, r)
    ensures var w := WindowOf(tokens, |text|, anchor, options.maxChars);
            var s := SnippetOf(text, tokens, ranges, anchor, options);
            var shown := FirstOf(Inside(ranges, w), ShownLimit(options.maxHighlights));
            && w.begin <= anchor <= w.end <= |text| && w.end - w.begin <= options.maxChars
            && s.text == JoinWords(Words(text[w.begin..w.end]))
            && Separate(s.highlights) && |s.highlights| == |shown|
            && (|s.highlights| <= options.maxHighlights <==> options.maxHighlights > 0 || Inside(ranges, w) == [])
            && forall i :: 0 <= i < |shown| ==> Shows(text, s.text, s.highlights[i], shown[i])
  {
    hide Collapse, Squeeze, Words, JoinWords, Inside, WindowOf, IsWordRange, Shows, Separate, Mapped;
    WindowHoldsAnchor(tokens, |text|, anchor, options.maxChars);
    var w := WindowOf(tokens, |text|, anchor, options.maxChars);
    var s := SnippetOf(text, tokens, ranges, anchor, options);
    CollapseIsWords(text[w.begin..w.end]);
    InsideHolds(ranges, w);
    InsideSeparate(ranges, w);
    var inside := Inside(ranges, w);
    var shown := FirstOf(inside, ShownLimit(options.maxHighlights));
    FirstSeparate(inside, ShownLimit(options.maxHighlights));
    HighlightsShow(text, w, shown, s.text, s.highlights);
  }

  lemma FirstSeparate(ranges: seq<Range>, max: nat)
    requires Separate(ranges)
    ensures Separate(FirstOf(ranges, max)) && forall r :: r in FirstOf(ranges, max) ==> r in ranges
  {
  }

  /* ----- buildSnippet ----- */

  /** From the start of one word to the end of the same or a later one. */
  lemma WordSpan(text: Text, tokens: seq<Token>, i: nat, j: nat)
    requires TokensOk(text, tokens) && i <= j < |tokens|
    ensures IsWordRange(text, Range(tokens[i].start, tokens[j].end))
  {
    hide IsWhitespace;
    assert tokens[i].start < tokens[i].end <= |text| && tokens[j].start < tokens[j].end;
    assert i < j ==> tokens[i].end <= tokens[j].start;
  }

  lemma PhraseIsWordRange(text: Text, tokens: seq<Token>, phrase: seq<Text>, r: Range)
    requires TokensOk(text, tokens) && IsPhraseRange(tokens, phrase, r)
    ensures IsWordRange(text, r)
  {
    hide TermFits, IsWhitespace, TokensOk, IsWordRange;
    var s :| phrase != [] && OccursAt(phrase, Terms(tokens), false, s)
             && r == Range(tokens[s].start, tokens[s + |phrase| - 1].end);
    WordSpan(text, tokens, s, s + |phrase| - 1);
  }

  lemma MatchIsWordRange(text: Text, tokens: seq<Token>, query: Query, rules: MatchRules, r: Range)
    requires TokensOk(text, tokens) && IsMatchRange(tokens, query, rules, r)
    ensures IsWordRange(text, r)
  {
    hide TermMatches, TermFits, IsWhitespace, TokensOk, IsWordRange;
    if IsTermRange(tokens, query.terms, rules, r) {
      var k, t :| 0 <= k < |tokens| && 0 <= t < |query.terms| && TermMatches(query.terms[t], tokens[k].term, rules)
                  && r == Range(tokens[k].start, tokens[k].end);
      WordSpan(text, tokens, k, k);
    } else {
      hide IsPhraseRange;
      var p :| 0 <= p < |query.phrases| && IsPhraseRange(tokens, query.phrases[p], r);
      PhraseIsWordRange(text, tokens, query.phrases[p], r);
    }
  }

  lemma MergedAreWordRanges(text: Text, matches: seq<Range>)
    requires forall r :: r in matches ==> IsWordRange(text, r)
    ensures Separate(Merged(matches)) && forall r :: r in Merged(matches) ==> IsWordRange(text, r)
  {
    hide Merged, IsWhitespace, Covers;
    MergedCoversTheSame(matches);
    var merged := Merged(matches);
    forall r | r in merged
      ensures IsWordRange(text, r)
    {
      var i :| 0 <= i < |merged| && merged[i] == r;
      assert StartsAt(matches, merged[i].start) && EndsAt(matches, merged[i].end);
      var a :| 0 <= a < |matches| && matches[a].start == r.start && matches[a].end > r.start;
      var b :| 0 <= b < |matches| && matches[b].end == r.end && matches[b].start < r.end;
      assert matches[a] in matches && matches[b] in matches;
    }
  }

  lemma AnchorInText(text: Text, tokens: seq<Token>, query: Query, ranges: seq<Range>, anchor: nat)
    requires TokensOk(text, tokens) && IsAnchor(tokens, query, ranges, anchor)
    requires forall r :: r in ranges ==> IsWordRange(text, r)
    ensures anchor <= |text|
  {
    hide TermFits, IsWhitespace;
    if HasPhrase(tokens, query) {
      var p, s :| 0 <= p < |query.phrases| && PhraseAt(tokens, query.phrases[p], s) && anchor == tokens[s].start;
    } else if ranges != [] {
      assert ranges[0] in ranges;
    }
  }

  /** The collapsing loop: the output, and where each unit of the source goes. */
  method CollapseWindow(source: Text) returns (output: Text, positions: array<nat>)
    ensures fresh(positions) && positions.Length == |source| + 1
    ensures output == Collapse(source)
    ensures forall i :: 0 <= i <= |source| ==> positions[i] == OutputLength(source, i)
  {
    positions := new nat[|source| + 1];
    output := [];
    for index := 0 to |source|
      invariant output == Squeeze(source[..index])
      invariant forall i :: 0 <= i < index ==> positions[i] == OutputLength(source, i)
    {
      positions[index] := |output|;
      assert source[..index + 1][..index] == source[..index];
      var unit := source[index];
      if IsWhitespace(unit) {
        if output != [] && !EndsWithSpace(output) {
          output := output + [SPACE];
        }
      } else {
        output := output + [unit];
      }
    }
    positions[|source|] := |output|;
    assert source[..|source|] == source;
    if EndsWithSpace(output) {
      output := output[..|output| - 1];
    }
  }

  function MapAll(source: Text, w: Window, output: Text, ranges: seq<Range>): seq<Range> {
    seq(|ranges|, i requires 0 <= i < |ranges| => Mapped(source, w, output, ranges[i]))
  }

  lemma {:induction false} InsidePrefix(ranges: seq<Range>, w: Window, k: nat)
    requires k <= |ranges|
    ensures Inside(ranges[..k], w) <= Inside(ranges, w)
    decreases |ranges| - k
  {
    if k < |ranges| {
      InsidePrefix(ranges, w, k + 1);
      assert ranges[..k + 1][..k] == ranges[..k];
    } else {
      assert ranges[..k] == ranges;
    }
  }

  /** The highlight loop. */
  method BuildHighlights(
    text: Text, w: Window, output: Text, positions: array<nat>, ranges: seq<Range>, maxHighlights: nat)
    returns (highlights: seq<Range>)
    requires w.begin <= w.end <= |text| && output == Collapse(text[w.begin..w.end])
    requires positions.Length == w.end - w.begin + 1
    requires forall i :: 0 <= i < positions.Length ==> positions[i] == OutputLength(text[w.begin..w.end], i)
    requires forall r :: r in ranges ==> IsWordRange(text, r)
    ensures highlights ==
            MapAll(text[w.begin..w.end], w, output, FirstOf(Inside(ranges, w), ShownLimit(maxHighlights)))
  {
    hide Collapse, Squeeze, IsWhitespace, OutputLength;
    ghost var source := text[w.begin..w.end];
    highlights := [];
    assert ranges[..0] == [];
    for k := 0 to |ranges|
      invariant highlights == MapAll(source, w, output, Inside(ranges[..k], w))
      invariant |highlights| < ShownLimit(maxHighlights)
    {
      assert ranges[..k + 1][..k] == ranges[..k];
      var range := ranges[k];
      if range.start < w.begin || range.end > w.end {
        continue;
      }
      assert range in ranges;
      HighlightShowsRange(text, w, range);
      var start := positions[range.start - w.begin];
      var after := positions[range.end - 1 - w.begin] + 1;
      var finish := if after <= |output| then after else |output|;
      assert Range(start, finish) == Mapped(source, w, output, range);
      MapPush(source, w, output, Inside(ranges[..k], w), range);
      if finish > start {
        highlights := highlights + [Range(start, finish)];
      }
      if |highlights| >= maxHighlights {
        InsidePrefix(ranges, w, k + 1);
        TakePrefix(Inside(ranges, w), Inside(ranges[..k + 1], w));
        return;
      }
    }
    assert ranges[..|ranges|] == ranges;
  }

  lemma MapPush(source: Text, w: Window, output: Text, ranges: seq<Range>, r: Range)
    ensures MapAll(source, w, output, ranges + [r]) == MapAll(source, w, output, ranges) + [Mapped(source, w, output, r)]
  {
    hide Mapped;
  }

  lemma TakePrefix(all: seq<Range>, part: seq<Range>)
    requires part <= all
    ensures FirstOf(all, |part|) == part
  {
    if |part| == |all| {
      assert all == part;
    }
  }

  /** Some match holds the positions from p to q. */
  ghost predicate Matched(tokens: seq<Token>, query: Query, rules: MatchRules, p: nat, q: nat) {
    exists r :: IsMatchRange(tokens, query, rules, r) && r.start <= p && q < r.end
  }

  /** Separate ranges that cover what the matches cover and join what a match joins. */
  ghost predicate AreMergedMatches(tokens: seq<Token>, query: Query, rules: MatchRules, ranges: seq<Range>) {
    && Separate(ranges)
    && (forall p: nat :: Covers(ranges, p) <==> Matched(tokens, query, rules, p, p))
    && (forall p: nat :: Joins(ranges, p) <==> Matched(tokens, query, rules, p, p + 1))
  }

  /** The snippet that a text and a query call for. */
  ghost predicate IsSnippet(text: Text, tokens: seq<Token>, query: Query, options: Options, snippet: Snippet) {
    exists ranges, anchor: nat ::
      && AreMergedMatches(tokens, query, options.rules, ranges) && (forall r :: r in ranges ==> IsWordRange(text, r))
      && IsAnchor(tokens, query, ranges, anchor) && anchor <= |text|
      && snippet == SnippetOf(text, tokens, ranges, anchor, options)
  }

  lemma OneAnchor(tokens: seq<Token>, query: Query, ranges: seq<Range>, a: nat, b: nat)
    requires IsAnchor(tokens, query, ranges, a) && IsAnchor(tokens, query, ranges, b)
    ensures a == b
  {
  }

  /** There is one such snippet. */
  lemma OneSnippet(text: Text, tokens: seq<Token>, query: Query, options: Options, a: Snippet, b: Snippet)
    requires IsSnippet(text, tokens, query, options, a) && IsSnippet(text, tokens, query, options, b)
    ensures a == b
  {
    hide SnippetOf, IsAnchor, Matched, Covers, Joins, Separate, IsWordRange;
    var ra, aa: nat :| && AreMergedMatches(tokens, query, options.rules, ra) && IsAnchor(tokens, query, ra, aa)
                       && a == SnippetOf(text, tokens, ra, aa, options);
    var rb, ab: nat :| && AreMergedMatches(tokens, query, options.rules, rb) && IsAnchor(tokens, query, rb, ab)
                       && b == SnippetOf(text, tokens, rb, ab, options);
    SeparateIsUnique(ra, rb);
    OneAnchor(tokens, query, ra, aa, ab);
  }

  /** buildSnippet(text, query, options) with the text's tokens. */
  method BuildSnippet(text: Text, tokens: seq<Token>, query: Query, options: Options) returns (snippet: Snippet)
    requires TokensOk(text, tokens)
    ensures IsSnippet(text, tokens, query, options, snippet)
  {
    hide Collapse, WordFrom, LastWordEnd, IsWhitespace, Inside, TermMatches, IsMatchRange, Matched, IsAnchor, TokensOk,
         IsWordRange, WindowOf, Merged, Covers, Joins;
    var matches := MatchRanges(tokens, query, options.rules);
    var merged := MergeRanges(matches, None);
    forall r | r in matches
      ensures IsWordRange(text, r)
    {
      MatchIsWordRange(text, tokens, query, options.rules, r);
    }
    MergedAreWordRanges(text, matches);
    MergedCoversTheSame(matches);
    CoversMatches(matches, tokens, query, options.rules);
    assert AreMergedMatches(tokens, query, options.rules, merged);
    var from := FindAnchor(tokens, query, merged);
    AnchorInText(text, tokens, query, merged, from);
    WindowHoldsAnchor(tokens, |text|, from, options.maxChars);
    var w := FindWindow(tokens, |text|, from, options.maxChars);
    var output, positions := CollapseWindow(text[w.begin..w.end]);
    var highlights := BuildHighlights(text, w, output, positions, merged, options.maxHighlights);
    snippet := Snippet(output, highlights, w.begin > 0 || options.precededByText, w.end < |text| || options.followedByText);
  }

  lemma CoversMatches(matches: seq<Range>, tokens: seq<Token>, query: Query, rules: MatchRules)
    requires forall r :: r in matches <==> IsMatchRange(tokens, query, rules, r)
    ensures forall p: nat :: Covers(matches, p) <==> Matched(tokens, query, rules, p, p)
    ensures forall p: nat :: Joins(matches, p) <==> Matched(tokens, query, rules, p, p + 1)
  {
    hide IsMatchRange;
    forall p: nat
      ensures Covers(matches, p) <==> Matched(tokens, query, rules, p, p)
      ensures Joins(matches, p) <==> Matched(tokens, query, rules, p, p + 1)
    {
      if Covers(matches, p) {
        var i :| 0 <= i < |matches| && matches[i].start <= p < matches[i].end;
        assert matches[i] in matches;
      }
      if Matched(tokens, query, rules, p, p) {
        var r :| IsMatchRange(tokens, query, rules, r) && r.start <= p < r.end;
        assert r in matches;
        var i :| 0 <= i < |matches| && matches[i] == r;
      }
      if Joins(matches, p) {
        var i :| 0 <= i < |matches| && matches[i].start <= p && p + 1 < matches[i].end;
        assert matches[i] in matches;
      }
      if Matched(tokens, query, rules, p, p + 1) {
        var r :| IsMatchRange(tokens, query, rules, r) && r.start <= p && p + 1 < r.end;
        assert r in matches;
        var i :| 0 <= i < |matches| && matches[i] == r;
      }
    }
  }

  /** Where the window begins and ends. */
  method FindWindow(tokens: seq<Token>, length: nat, anchor: nat, maxChars: nat) returns (w: Window)
    ensures w == WindowOf(tokens, length, anchor, maxChars)
  {
    hide WordFrom;
    var begin, end := 0, length;
    if length > maxChars {
      begin := if anchor >= maxChars / 3 then anchor - maxChars / 3 else 0;
      if begin > 0 {
        begin := WordFrom(tokens, begin, anchor);
      }
      if begin + maxChars < length {
        end := begin + maxChars;
        var last: Option<nat> := None;
        assert tokens[..0] == [];
        for i := 0 to |tokens|
          invariant last == LastWordEnd(tokens[..i], begin, end)
        {
          assert tokens[..i + 1][..i] == tokens[..i];
          if tokens[i].start >= begin && tokens[i].end <= end {
            last := Some(tokens[i].end);
          }
        }
        assert tokens[..|tokens|] == tokens;
        if last.Some? && last.value > anchor {
          end := last.value;
        }
      } else {
        var pulled := end - maxChars;
        if pulled < begin {
          begin := WordFrom(tokens, pulled, begin);
        }
      }
    }
    w := Window(begin, end);
  }
}
