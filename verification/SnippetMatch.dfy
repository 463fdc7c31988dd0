/** packages/search/src/snippet.ts: the match a snippet is made for lies in its window, highlighted. */
module SnippetMatch {
  import opened Wrappers
  import opened Utf16
  import opened Matching
  import opened HighlightRanges
  import opened Snippets

  /* ----- Matches reach from word to word ----- */

  lemma PhraseIsSpan(tokens: seq<Token>, query: Query, p: nat, r: Range) returns (i: nat, j: nat)
    requires p < |query.phrases| && IsPhraseRange(tokens, query.phrases[p], r)
    ensures i <= j < |tokens| && r == Range(tokens[i].start, tokens[j].end) && PhraseAt(tokens, query.phrases[p], i)
  {
    hide TermFits;
    var phrase := query.phrases[p];
    var s :| phrase != [] && OccursAt(phrase, Terms(tokens), false, s)
             && r == Range(tokens[s].start, tokens[s + |phrase| - 1].end);
    i, j := s, s + |phrase| - 1;
  }

  lemma MatchIsSpan(tokens: seq<Token>, query: Query, rules: MatchRules, r: Range) returns (i: nat, j: nat)
    requires IsMatchRange(tokens, query, rules, r)
    ensures i <= j < |tokens| && r == Range(tokens[i].start, tokens[j].end)
    ensures i < j ==> exists p :: 0 <= p < |query.phrases| && PhraseAt(tokens, query.phrases[p], i)
  {
    hide TermMatches, IsPhraseRange, PhraseAt;
    if IsTermRange(tokens, query.terms, rules, r) {
      var k, t :| 0 <= k < |tokens| && 0 <= t < |query.terms| && TermMatches(query.terms[t], tokens[k].term, rules)
                  && r == Range(tokens[k].start, tokens[k].end);
      i, j := k, k;
    } else {
      var p :| 0 <= p < |query.phrases| && IsPhraseRange(tokens, query.phrases[p], r);
      i, j := PhraseIsSpan(tokens, query, p, r);
    }
  }

  /** No match holds both the anchor and the position before it. */
  lemma AnchorBegins(text: Text, tokens: seq<Token>, query: Query, rules: MatchRules, ranges: seq<Range>, anchor: nat)
    requires TokensOk(text, tokens) && AreMergedMatches(tokens, query, rules, ranges) && ranges != []
    requires IsAnchor(tokens, query, ranges, anchor)
    ensures Matched(tokens, query, rules, anchor, anchor)
    ensures anchor > 0 ==> !Matched(tokens, query, rules, anchor - 1, anchor)
  {
    hide TermFits, IsMatchRange, IsWhitespace;
    if HasPhrase(tokens, query) {
      PhraseAnchorBegins(text, tokens, query, rules, ranges, anchor);
    } else {
      assert Covers(ranges, anchor);
      assert anchor > 0 ==> !Joins(ranges, anchor - 1);
    }
  }

  lemma PhraseAnchorBegins(text: Text, tokens: seq<Token>, query: Query, rules: MatchRules, ranges: seq<Range>, anchor: nat)
    requires TokensOk(text, tokens) && HasPhrase(tokens, query) && IsAnchor(tokens, query, ranges, anchor)
    ensures Matched(tokens, query, rules, anchor, anchor)
    ensures anchor > 0 ==> !Matched(tokens, query, rules, anchor - 1, anchor)
  {
    hide TermFits, IsMatchRange, TokensOk;
    var p, s :| 0 <= p < |query.phrases| && PhraseAt(tokens, query.phrases[p], s) && anchor == tokens[s].start
                && forall q, t :: 0 <= q < |query.phrases| && PhraseAt(tokens, query.phrases[q], t) ==> s <= t;
    PhraseMatches(text, tokens, query, rules, p, s);
    forall m | IsMatchRange(tokens, query, rules, m) && m.end > anchor
      ensures m.start >= anchor
    {
      var i, j := MatchIsSpan(tokens, query, rules, m);
      WordsInOrder(text, tokens, s, i);
      WordsInOrder(text, tokens, s, j);
    }
  }

  lemma PhraseMatches(text: Text, tokens: seq<Token>, query: Query, rules: MatchRules, p: nat, s: int)
    requires TokensOk(text, tokens) && p < |query.phrases| && PhraseAt(tokens, query.phrases[p], s)
    ensures 0 <= s < |tokens| && Matched(tokens, query, rules, tokens[s].start, tokens[s].start)
  {
    hide TermFits, IsTermRange, IsWhitespace;
    var phrase := query.phrases[p];
    var r := Range(tokens[s].start, tokens[s + |phrase| - 1].end);
    assert IsPhraseRange(tokens, phrase, r);
    assert IsMatchRange(tokens, query, rules, r) && r.start <= tokens[s].start < r.end;
  }

  lemma WordsInOrder(text: Text, tokens: seq<Token>, s: nat, i: nat)
    requires TokensOk(text, tokens) && s < |tokens| && i < |tokens|
    ensures i < s ==> tokens[i].end <= tokens[s].start
    ensures s <= i ==> tokens[s].start <= tokens[i].start
  {
    hide IsWhitespace;
    assert tokens[s].start < tokens[s].end;
  }

  /** Among the merged ranges one begins at the anchor; without a phrase it is the first. */
  lemma AnchorRange(text: Text, tokens: seq<Token>, query: Query, rules: MatchRules, ranges: seq<Range>, anchor: nat)
    returns (k: nat)
    requires TokensOk(text, tokens) && AreMergedMatches(tokens, query, rules, ranges) && ranges != []
    requires IsAnchor(tokens, query, ranges, anchor)
    ensures k < |ranges| && ranges[k].start == anchor && (!HasPhrase(tokens, query) ==> k == 0)
  {
    hide Matched, TokensOk, HasPhrase, PhraseAt;
    AnchorBegins(text, tokens, query, rules, ranges, anchor);
    assert Covers(ranges, anchor);
    k :| 0 <= k < |ranges| && ranges[k].start <= anchor < ranges[k].end;
    assert anchor > 0 ==> !Joins(ranges, anchor - 1);
  }

  /** A merged range ends where a word ends that begins inside it. */
  lemma RangeEndsWord(text: Text, tokens: seq<Token>, query: Query, rules: MatchRules, ranges: seq<Range>, k: nat) returns (j: nat)
    requires TokensOk(text, tokens) && AreMergedMatches(tokens, query, rules, ranges) && k < |ranges|
    ensures j < |tokens| && tokens[j].end == ranges[k].end && tokens[j].start >= ranges[k].start
  {
    hide IsMatchRange, IsWhitespace;
    var r := ranges[k];
    assert Covers(ranges, r.end - 1) && !Joins(ranges, r.end - 1);
    var m :| IsMatchRange(tokens, query, rules, m) && m.start <= r.end - 1 < m.end;
    var i, e := MatchIsSpan(tokens, query, rules, m);
    assert m.end == r.end;
    assert m.start < r.start ==> Joins(ranges, r.start - 1);
    assert i < e ==> tokens[i].end <= tokens[e].start;
    j := e;
  }

  /* ----- The window holds what fits ----- */

  /** What is left of the window from the anchor on, at least. */
  function RoomAfter(maxChars: nat): nat {
    maxChars - maxChars / 3
  }

  lemma {:induction false} LastWordEndAtLeast(text: Text, tokens: seq<Token>, begin: nat, end: nat, j: nat)
    requires TokensOk(text, tokens) && j < |tokens| && tokens[j].start >= begin && tokens[j].end <= end
    ensures LastWordEnd(tokens, begin, end).Some? && LastWordEnd(tokens, begin, end).value >= tokens[j].end
    decreases |tokens|
  {
    hide IsWhitespace;
    var n := |tokens| - 1;
    if !(tokens[n].start >= begin && tokens[n].end <= end) {
      LastWordEndAtLeast(text, tokens[..n], begin, end, j);
    }
  }

  /** A word from the anchor on that ends within the room lies in the window. */
  lemma WindowHoldsWord(text: Text, tokens: seq<Token>, anchor: nat, maxChars: nat, j: nat)
    requires TokensOk(text, tokens) && anchor <= |text| && j < |tokens| && tokens[j].start >= anchor
    requires tokens[j].end - anchor <= RoomAfter(maxChars)
    ensures var w := WindowOf(tokens, |text|, anchor, maxChars);
            w.begin <= anchor && tokens[j].end <= w.end
  {
    hide WordFrom, LastWordEnd, IsWhitespace;
    var length := |text|;
    assert tokens[j].end <= length;
    if length > maxChars {
      var early := Earlier(anchor, maxChars);
      var begin := if early > 0 then WordFrom(tokens, early, anchor) else 0;
      if begin + maxChars < length {
        LastWordEndAtLeast(text, tokens, begin, begin + maxChars, j);
      }
    }
  }

  /* ----- The match is shown ----- */

  lemma ShownAt(ranges: seq<Range>, w: Window, k: nat, limit: nat)
    requires k < |ranges| && w.begin <= ranges[k].start && ranges[k].end <= w.end
    ensures var before, shown := |Inside(ranges[..k], w)|, FirstOf(Inside(ranges, w), limit);
            before < limit ==> before < |shown| && shown[before] == ranges[k]
  {
    assert ranges[..k + 1][..k] == ranges[..k];
    InsidePrefix(ranges, w, k + 1);
    assert Inside(ranges[..k + 1], w) == Inside(ranges[..k], w) + [ranges[k]];
  }

  /**
   * The match that a snippet is made for, merged with those that overlap it, lies wholly in the window when it
   * is no longer than two thirds of the window, and is highlighted unless the highlights before it fill the
   * limit. Without a phrase it is the first highlight.
   */
  lemma AnchoredMatchShown(text: Text, tokens: seq<Token>, query: Query, options: Options, ranges: seq<Range>, anchor: nat)
    returns (k: nat)
    requires TokensOk(text, tokens) && AreMergedMatches(tokens, query, options.rules, ranges) && ranges != []
    requires IsAnchor(tokens, query, ranges, anchor) && forall r :: r in ranges ==> IsWordRange(text, r)
    ensures k < |ranges| && ranges[k].start == anchor && (!HasPhrase(tokens, query) ==> k == 0)
    ensures ranges[k].end - anchor <= RoomAfter(options.maxChars) ==>
              var w := WindowOf(tokens, |text|, anchor, options.maxChars);
              var s, before := SnippetOf(text, tokens, ranges, anchor, options), |Inside(ranges[..k], w)|;
              && w.begin <= anchor && ranges[k].end <= w.end
              && (before < options.maxHighlights || before == 0 ==>
                    before < |s.highlights| && Shows(text, s.text, s.highlights[before], ranges[k]))
  {
    hide TokensOk, IsWordRange, IsAnchor, HasPhrase, Matched, WindowOf, Shows, Inside, Covers, Joins, IsWhitespace, Words, JoinWords;
    k := AnchorRange(text, tokens, query, options.rules, ranges, anchor);
    AnchorInText(text, tokens, query, ranges, anchor);
    if ranges[k].end - anchor <= RoomAfter(options.maxChars) {
      var j := RangeEndsWord(text, tokens, query, options.rules, ranges, k);
      WindowHoldsWord(text, tokens, anchor, options.maxChars, j);
      SnippetShowsWindow(text, tokens, ranges, anchor, options);
      ShownAt(ranges, WindowOf(tokens, |text|, anchor, options.maxChars), k, ShownLimit(options.maxHighlights));
    }
  }

  /* ----- How many are shown ----- */

  /** Which of the first `n` ranges lie wholly in the window. */
  ghost function InWindow(ranges: seq<Range>, w: Window, n: int): set<int> {
    set i | 0 <= i < n && i < |ranges| && w.begin <= ranges[i].start && ranges[i].end <= w.end
  }

  lemma {:induction false} InsideCounts(ranges: seq<Range>, w: Window, n: nat)
    requires n <= |ranges|
    ensures |Inside(ranges[..n], w)| == |InWindow(ranges, w, n)|
  {
    if n > 0 {
      var last := ranges[n - 1];
      assert ranges[..n][..n - 1] == ranges[..n - 1];
      InsideCounts(ranges, w, n - 1);
      assert InWindow(ranges, w, n) ==
             if w.begin <= last.start && last.end <= w.end then InWindow(ranges, w, n - 1) + {n - 1} else InWindow(ranges, w, n - 1);
    }
  }

  /**
   * Of the ranges that lie wholly in the window the first ones are shown, in order, as many as allowed and at
   * least one. The snippet counts as cut where the window or the text it was taken from goes on.
   */
  lemma HighlightsExactly(text: Text, tokens: seq<Token>, ranges: seq<Range>, anchor: nat, options: Options, k: int)
    requires anchor <= |text| && Separate(ranges) && forall r :: r in ranges ==> IsWordRange(text, r)
    ensures var w := WindowOf(tokens, |text|, anchor, options.maxChars);
            var s := SnippetOf(text, tokens, ranges, anchor, options);
            var total, before := |InWindow(ranges, w, |ranges|)|, |InWindow(ranges, w, k)|;
            && (total <= options.maxHighlights || total == 0 ==> |s.highlights| == total)
            && (total > options.maxHighlights > 0 ==> |s.highlights| == options.maxHighlights)
            && (total > options.maxHighlights == 0 ==> |s.highlights| == 1)
            && (k in InWindow(ranges, w, |ranges|) && before < |s.highlights| ==> Shows(text, s.text, s.highlights[before], ranges[k]))
            && (s.truncatedStart <==> w.begin > 0 || options.precededByText)
            && (s.truncatedEnd <==> w.end < |text| || options.followedByText)
  {
    hide WindowOf, Shows, Inside, IsWordRange, Words, JoinWords, Collapse, Mapped;
    SnippetShowsWindow(text, tokens, ranges, anchor, options);
    var w := WindowOf(tokens, |text|, anchor, options.maxChars);
    InsideCounts(ranges, w, |ranges|);
    assert ranges[..|ranges|] == ranges;
    if k in InWindow(ranges, w, |ranges|) {
      InsideCounts(ranges, w, k);
      ShownAt(ranges, w, k, ShownLimit(options.maxHighlights));
    }
  }

  /* ----- Surrogate pairs ----- */

  /** Words begin and end between characters. */
  ghost predicate OnCharacters(text: Text, tokens: seq<Token>) {
    forall i :: 0 <= i < |tokens| ==>
                  tokens[i].start <= |text| && tokens[i].end <= |text|
                  && OnBoundary(text, tokens[i].start) && OnBoundary(text, tokens[i].end)
  }

  /** Some word between `begin` and `cut` ends after the anchor. */
  ghost predicate SomeWordFits(tokens: seq<Token>, begin: nat, cut: nat, anchor: nat) {
    exists i :: 0 <= i < |tokens| && tokens[i].start >= begin && anchor < tokens[i].end <= cut
  }

  lemma {:induction false} WordFromIs(tokens: seq<Token>, position: nat, otherwise: nat)
    ensures var at := WordFrom(tokens, position, otherwise);
            at == otherwise || exists i :: 0 <= i < |tokens| && tokens[i].start == at
  {
    if tokens != [] && tokens[0].start < position {
      WordFromIs(tokens[1..], position, otherwise);
      var at, rest := WordFrom(tokens[1..], position, otherwise), tokens[1..];
      assert forall i :: 0 <= i < |rest| ==> rest[i] == tokens[i + 1];
    }
  }

  lemma {:induction false} LastWordEndIs(tokens: seq<Token>, begin: nat, end: nat)
    ensures var last := LastWordEnd(tokens, begin, end);
            last.Some? ==> exists i :: 0 <= i < |tokens| && tokens[i].start >= begin && tokens[i].end == last.value <= end
  {
    if tokens != [] {
      LastWordEndIs(tokens[..|tokens| - 1], begin, end);
    }
  }

  lemma LastWordFits(text: Text, tokens: seq<Token>, begin: nat, cut: nat, anchor: nat)
    requires TokensOk(text, tokens)
    ensures var last := LastWordEnd(tokens, begin, cut);
            last.Some? && last.value > anchor <==> SomeWordFits(tokens, begin, cut, anchor)
  {
    hide TokensOk, LastWordEnd;
    LastWordEndIs(tokens, begin, cut);
    if SomeWordFits(tokens, begin, cut, anchor) {
      var i :| 0 <= i < |tokens| && tokens[i].start >= begin && anchor < tokens[i].end <= cut;
      LastWordEndAtLeast(text, tokens, begin, cut, i);
    }
  }

  /**
   * The window begins between characters. It ends inside a surrogate pair exactly when it is cut at its full
   * length there, because no word that ends after the anchor fits.
   */
  lemma WindowSplitsPair(text: Text, tokens: seq<Token>, anchor: nat, maxChars: nat)
    requires TokensOk(text, tokens) && OnCharacters(text, tokens) && anchor <= |text| && OnBoundary(text, anchor)
    ensures var w := WindowOf(tokens, |text|, anchor, maxChars);
            var cut := w.begin + maxChars;
            && w.begin <= w.end <= |text| && OnBoundary(text, w.begin)
            && (!OnBoundary(text, w.end) <==>
                cut < |text| && !OnBoundary(text, cut) && !SomeWordFits(tokens, w.begin, cut, anchor))
  {
    hide WordFrom, LastWordEnd, TokensOk, OnBoundary, SomeWordFits;
    WindowHoldsAnchor(tokens, |text|, anchor, maxChars);
    EndsOnBoundary(text);
    if |text| > maxChars {
      var early := Earlier(anchor, maxChars);
      WordFromIs(tokens, early, anchor);
      var begin := if early > 0 then WordFrom(tokens, early, anchor) else 0;
      if begin + maxChars < |text| {
        LastWordFits(text, tokens, begin, begin + maxChars, anchor);
        LastWordEndIs(tokens, begin, begin + maxChars);
      } else {
        WordFromIs(tokens, |text| - maxChars, begin);
      }
    }
  }

  lemma EndsOnBoundary(text: Text)
    ensures OnBoundary(text, 0) && OnBoundary(text, |text|)
  {
  }

  /* ----- Where the window is ----- */

  /** The first word that starts at `from` or later, but no later than `latest`; `latest` when there is none. */
  ghost predicate IsWordFrom(tokens: seq<Token>, from: nat, latest: nat, at: nat) {
    && at <= latest
    && (at == latest || exists i :: 0 <= i < |tokens| && tokens[i].start == at && at >= from)
    && forall i :: 0 <= i < |tokens| && tokens[i].start >= from ==> at <= tokens[i].start
  }

  lemma {:induction false} WordFromIsFirst(tokens: seq<Token>, from: nat, latest: nat)
    requires forall i, j :: 0 <= i < j < |tokens| ==> tokens[i].start <= tokens[j].start
    ensures IsWordFrom(tokens, from, latest, WordFrom(tokens, from, latest))
  {
    if tokens != [] {
      var rest := tokens[1..];
      if tokens[0].start < from {
        WordFromIsFirst(rest, from, latest);
        var at := WordFrom(rest, from, latest);
        if i :| 0 <= i < |rest| && rest[i].start == at && at >= from {
          assert tokens[i + 1].start == at;
        }
        forall i | 0 <= i < |tokens| && tokens[i].start >= from
          ensures at <= tokens[i].start
        {
          assert tokens[i] == rest[i - 1];
        }
      } else {
        assert forall i :: 0 < i < |tokens| ==> tokens[0].start <= tokens[i].start;
      }
    }
  }

  /** The last word between `begin` and `cut` ends at `end`, after the anchor. */
  ghost predicate IsLastWord(tokens: seq<Token>, begin: nat, cut: nat, anchor: nat, end: nat) {
    && (exists i :: 0 <= i < |tokens| && tokens[i].start >= begin && anchor < tokens[i].end == end <= cut)
    && forall i :: 0 <= i < |tokens| && tokens[i].start >= begin && tokens[i].end <= cut ==> tokens[i].end <= end
  }

  /**
   * A window on a longer text begins at the first word of its third before the anchor, or at the anchor, or at 0.
   * It ends with the last word within `maxChars`, or is cut there. Where this would pass the end of the text it
   * ends there, and begins at the first word of the last `maxChars` characters unless it began earlier.
   */
  ghost predicate IsWindow(tokens: seq<Token>, length: nat, anchor: nat, maxChars: nat, first: nat, w: Window)
    requires maxChars <= length
  {
    var third := maxChars / 3;
    && (if anchor > third then IsWordFrom(tokens, anchor - third, anchor, first) else first == 0)
    && if first + maxChars < length then
         && w.begin == first
         && if SomeWordFits(tokens, first, first + maxChars, anchor)
            then IsLastWord(tokens, first, first + maxChars, anchor, w.end) else w.end == first + maxChars
       else
         && w.end == length
         && if length - maxChars < first then IsWordFrom(tokens, length - maxChars, first, w.begin) else w.begin == first
  }

  lemma LastWordIs(text: Text, tokens: seq<Token>, begin: nat, cut: nat, anchor: nat)
    requires TokensOk(text, tokens) && SomeWordFits(tokens, begin, cut, anchor)
    ensures LastWordEnd(tokens, begin, cut).Some? && IsLastWord(tokens, begin, cut, anchor, LastWordEnd(tokens, begin, cut).value)
  {
    hide TokensOk, LastWordEnd;
    LastWordFits(text, tokens, begin, cut, anchor);
    LastWordEndIs(tokens, begin, cut);
    forall i | 0 <= i < |tokens| && tokens[i].start >= begin && tokens[i].end <= cut
      ensures tokens[i].end <= LastWordEnd(tokens, begin, cut).value
    {
      LastWordEndAtLeast(text, tokens, begin, cut, i);
    }
  }

  lemma StartsRise(text: Text, tokens: seq<Token>)
    requires TokensOk(text, tokens)
    ensures forall i, j :: 0 <= i < j < |tokens| ==> tokens[i].start <= tokens[j].start
  {
    hide IsWhitespace;
  }

  lemma WindowIsPlaced(text: Text, tokens: seq<Token>, anchor: nat, maxChars: nat) returns (first: nat)
    requires TokensOk(text, tokens) && |text| > maxChars
    ensures IsWindow(tokens, |text|, anchor, maxChars, first, WindowOf(tokens, |text|, anchor, maxChars))
  {
    hide TokensOk, WordFrom, LastWordEnd, IsWordFrom, IsLastWord, SomeWordFits;
    StartsRise(text, tokens);
    var early := Earlier(anchor, maxChars);
    first := if early > 0 then WordFrom(tokens, early, anchor) else 0;
    WordFromIsFirst(tokens, early, anchor);
    if first + maxChars < |text| {
      LastWordFits(text, tokens, first, first + maxChars, anchor);
      if SomeWordFits(tokens, first, first + maxChars, anchor) {
        LastWordIs(text, tokens, first, first + maxChars, anchor);
      }
    } else {
      WordFromIsFirst(tokens, |text| - maxChars, first);
    }
  }
}
