/** packages/search/src/snippet.ts: the ranges of a text that match a query, merged. */
module HighlightRanges {
  import opened Wrappers
  import opened Numbers
  import opened Utf16
  import opened Matching

  datatype Range = Range(start: nat, end: nat)

  /** A word of the text and its normalized term. */
  datatype Token = Token(term: Text, start: nat, end: nat)

  datatype Query = Query(terms: seq<Text>, phrases: seq<seq<Text>>)

  /* ----- mergeRanges ----- */

  /** Earlier starts first, then longer ranges. */
  predicate Before(a: Range, b: Range) {
    a.start < b.start || (a.start == b.start && a.end >= b.end)
  }

  function Insert(r: Range, ranges: seq<Range>): seq<Range> {
    if ranges == [] || Before(r, ranges[0]) then [r] + ranges else [ranges[0]] + Insert(r, ranges[1..])
  }

  function Sort(ranges: seq<Range>): seq<Range> {
    if ranges == [] then [] else Insert(ranges[0], Sort(ranges[1..]))
  }

  function NonEmpty(ranges: seq<Range>): seq<Range> {
    if ranges == [] then []
    else if ranges[0].end > ranges[0].start then [ranges[0]] + NonEmpty(ranges[1..])
    else NonEmpty(ranges[1..])
  }

  function MergeStep(merged: seq<Range>, r: Range): seq<Range> {
    if merged != [] && r.start < merged[|merged| - 1].end then
      var last := merged[|merged| - 1];
      merged[..|merged| - 1] + [Range(last.start, Max(last.end, r.end))]
    else merged + [r]
  }

  function MergeAll(sorted: seq<Range>): seq<Range> {
    if sorted == [] then [] else MergeStep(MergeAll(sorted[..|sorted| - 1]), sorted[|sorted| - 1])
  }

  function Merged(ranges: seq<Range>): seq<Range> {
    MergeAll(Sort(NonEmpty(ranges)))
  }

  /** mergeRanges(ranges, max); None is no limit. */
  method MergeRanges(ranges: seq<Range>, max: Option<nat>) returns (merged: seq<Range>)
    ensures var all := Merged(ranges);
            merged == if max.Some? && max.value < |all| then all[..max.value] else all
  {
    hide Insert, Sort, NonEmpty;
    var sorted := Sort(NonEmpty(ranges));
    merged := [];
    assert sorted[..0] == [];
    for i := 0 to |sorted|
      invariant merged == MergeAll(sorted[..i])
    {
      assert sorted[..i + 1][..i] == sorted[..i];
      var range := sorted[i];
      if merged != [] && range.start < merged[|merged| - 1].end {
        var last := merged[|merged| - 1];
        merged := merged[..|merged| - 1] + [Range(last.start, Max(last.end, range.end))];
      } else {
        merged := merged + [range];
      }
    }
    assert sorted[..|sorted|] == sorted;
    if max.Some? && max.value < |merged| {
      merged := merged[..max.value];
    }
  }

  /** A position lies in one of the ranges. */
  predicate Covers(ranges: seq<Range>, p: nat) {
    exists i :: 0 <= i < |ranges| && ranges[i].start <= p < ranges[i].end
  }

  /** One of the ranges holds both p and the next position. */
  predicate Joins(ranges: seq<Range>, p: nat) {
    exists i :: 0 <= i < |ranges| && ranges[i].start <= p && p + 1 < ranges[i].end
  }

  /** Non-empty ranges in order that do not overlap. */
  predicate Separate(ranges: seq<Range>) {
    && (forall i :: 0 <= i < |ranges| ==> ranges[i].start < ranges[i].end)
    && (forall i, j :: 0 <= i < j < |ranges| ==> ranges[i].end <= ranges[j].start)
  }

  predicate StartsAt(ranges: seq<Range>, p: nat) {
    exists i :: 0 <= i < |ranges| && ranges[i].start == p && ranges[i].end > p
  }

  predicate EndsAt(ranges: seq<Range>, p: nat) {
    exists i :: 0 <= i < |ranges| && ranges[i].end == p && ranges[i].start < p
  }

  predicate InStartOrder(ranges: seq<Range>) {
    forall i, j :: 0 <= i < j < |ranges| ==> ranges[i].start <= ranges[j].start
  }

  lemma {:induction false} InsertHolds(r: Range, ranges: seq<Range>)
    ensures forall x :: x in Insert(r, ranges) <==> x == r || x in ranges
    ensures InStartOrder(ranges) ==> InStartOrder(Insert(r, ranges))
  {
    if ranges != [] && !Before(r, ranges[0]) {
      InsertHolds(r, ranges[1..]);
      assert ranges == [ranges[0]] + ranges[1..];
      if InStartOrder(ranges) {
        var placed := Insert(r, ranges[1..]);
        forall x | x in placed
          ensures ranges[0].start <= x.start
        {
          if x != r {
            var k :| 0 <= k < |ranges[1..]| && ranges[1..][k] == x;
            assert x == ranges[k + 1];
          }
        }
        StartsFirst(ranges[0], placed);
      }
    } else if InStartOrder(ranges) {
      forall x | x in ranges
        ensures r.start <= x.start
      {
        var k :| 0 <= k < |ranges| && ranges[k] == x;
        assert ranges[0].start <= ranges[k].start;
      }
      StartsFirst(r, ranges);
    }
  }

  lemma StartsFirst(r: Range, ranges: seq<Range>)
    requires InStartOrder(ranges) && forall x :: x in ranges ==> r.start <= x.start
    ensures InStartOrder([r] + ranges)
  {
  }

  lemma {:induction false} SortHolds(ranges: seq<Range>)
    ensures InStartOrder(Sort(ranges)) && forall x :: x in Sort(ranges) <==> x in ranges
  {
    if ranges != [] {
      SortHolds(ranges[1..]);
      InsertHolds(ranges[0], Sort(ranges[1..]));
      assert ranges == [ranges[0]] + ranges[1..];
    }
  }

  lemma {:induction false} NonEmptyHolds(ranges: seq<Range>)
    ensures forall x :: x in NonEmpty(ranges) <==> x in ranges && x.start < x.end
  {
    if ranges != [] {
      NonEmptyHolds(ranges[1..]);
      assert ranges == [ranges[0]] + ranges[1..];
    }
  }

  /** What merging keeps: the last range starts no later than the last one merged. */
  ghost predicate MergedOk(merged: seq<Range>, sorted: seq<Range>) {
    && Separate(merged)
    && (forall p :: Covers(merged, p) <==> Covers(sorted, p))
    && (forall p :: Joins(merged, p) <==> Joins(sorted, p))
    && (forall i :: 0 <= i < |merged| ==> StartsAt(sorted, merged[i].start) && EndsAt(sorted, merged[i].end))
    && (merged == [] <==> sorted == [])
    && (merged != [] ==> merged[|merged| - 1].start <= sorted[|sorted| - 1].start)
  }

  lemma CoversPush(ranges: seq<Range>, r: Range, p: nat)
    ensures Covers(ranges + [r], p) <==> Covers(ranges, p) || r.start <= p < r.end
    ensures Joins(ranges + [r], p) <==> Joins(ranges, p) || (r.start <= p && p + 1 < r.end)
    ensures StartsAt(ranges + [r], p) <==> StartsAt(ranges, p) || (r.start == p && r.end > p)
    ensures EndsAt(ranges + [r], p) <==> EndsAt(ranges, p) || (r.end == p && r.start < p)
  {
    var all := ranges + [r];
    assert all[|ranges|] == r;
    assert forall i :: 0 <= i < |ranges| ==> all[i] == ranges[i];
  }

  lemma MergeStepOk(merged: seq<Range>, sorted: seq<Range>, r: Range)
    requires MergedOk(merged, sorted) && r.start < r.end
    requires sorted != [] ==> sorted[|sorted| - 1].start <= r.start
    ensures MergedOk(MergeStep(merged, r), sorted + [r])
  {
    hide Covers, Joins, StartsAt, EndsAt;
    var next := MergeStep(merged, r);
    if merged != [] && r.start < merged[|merged| - 1].end {
      var front, last := merged[..|merged| - 1], merged[|merged| - 1];
      var wide := Range(last.start, Max(last.end, r.end));
      assert merged == front + [last] && next == front + [wide];
      forall p
        ensures Covers(next, p) <==> Covers(sorted + [r], p)
        ensures Joins(next, p) <==> Joins(sorted + [r], p)
      {
        CoversPush(front, last, p);
        CoversPush(front, wide, p);
        CoversPush(sorted, r, p);
      }
      forall i | 0 <= i < |next|
        ensures StartsAt(sorted + [r], next[i].start) && EndsAt(sorted + [r], next[i].end)
      {
        CoversPush(sorted, r, next[i].start);
        CoversPush(sorted, r, next[i].end);
        assert merged[i].start == next[i].start;
      }
    } else {
      forall p
        ensures Covers(next, p) <==> Covers(sorted + [r], p)
        ensures Joins(next, p) <==> Joins(sorted + [r], p)
      {
        CoversPush(merged, r, p);
        CoversPush(sorted, r, p);
      }
      forall i | 0 <= i < |next|
        ensures StartsAt(sorted + [r], next[i].start) && EndsAt(sorted + [r], next[i].end)
      {
        CoversPush(sorted, r, next[i].start);
        CoversPush(sorted, r, next[i].end);
      }
    }
  }

  lemma {:induction false} MergeAllOk(sorted: seq<Range>)
    requires InStartOrder(sorted) && forall r :: r in sorted ==> r.start < r.end
    ensures MergedOk(MergeAll(sorted), sorted)
  {
    hide MergeStep;
    if sorted == [] {
      NothingMerged();
    } else {
      var front, last := sorted[..|sorted| - 1], sorted[|sorted| - 1];
      assert sorted == front + [last];
      hide MergedOk;
      MergeAllOk(front);
      MergeStepOk(MergeAll(front), front, last);
    }
  }

  lemma NothingMerged()
    ensures MergedOk([], [])
  {
  }

  lemma SameElements(a: seq<Range>, b: seq<Range>, p: nat)
    requires forall x :: x in a && x.start < x.end <==> x in b && x.start < x.end
    ensures Covers(a, p) <==> Covers(b, p)
    ensures Joins(a, p) <==> Joins(b, p)
    ensures StartsAt(a, p) <==> StartsAt(b, p)
    ensures EndsAt(a, p) <==> EndsAt(b, p)
  {
    OneWay(a, b, p);
    OneWay(b, a, p);
  }

  lemma OneWay(a: seq<Range>, b: seq<Range>, p: nat)
    requires forall x :: x in a && x.start < x.end ==> x in b
    ensures Covers(a, p) ==> Covers(b, p)
    ensures Joins(a, p) ==> Joins(b, p)
    ensures StartsAt(a, p) ==> StartsAt(b, p)
    ensures EndsAt(a, p) ==> EndsAt(b, p)
  {
    if Covers(a, p) {
      var i :| 0 <= i < |a| && a[i].start <= p < a[i].end;
      assert a[i] in b;
      var j :| 0 <= j < |b| && b[j] == a[i];
    }
    if Joins(a, p) {
      var i :| 0 <= i < |a| && a[i].start <= p && p + 1 < a[i].end;
      assert a[i] in b;
      var j :| 0 <= j < |b| && b[j] == a[i];
    }
    if StartsAt(a, p) {
      var i :| 0 <= i < |a| && a[i].start == p && a[i].end > p;
      assert a[i] in b;
      var j :| 0 <= j < |b| && b[j] == a[i];
    }
    if EndsAt(a, p) {
      var i :| 0 <= i < |a| && a[i].end == p && a[i].start < p;
      assert a[i] in b;
      var j :| 0 <= j < |b| && b[j] == a[i];
    }
  }

  /**
   * Merging keeps what is covered, in ranges that do not overlap and start and end where given ranges do.
   * Two neighbouring positions share a merged range exactly when they share a given one: ranges that only
   * touch stay apart.
   */
  lemma MergedCoversTheSame(ranges: seq<Range>)
    ensures Separate(Merged(ranges))
    ensures forall p :: Covers(Merged(ranges), p) <==> Covers(ranges, p)
    ensures forall p :: Joins(Merged(ranges), p) <==> Joins(ranges, p)
    ensures forall i :: 0 <= i < |Merged(ranges)| ==>
                          StartsAt(ranges, Merged(ranges)[i].start) && EndsAt(ranges, Merged(ranges)[i].end)
  {
    hide Insert, Sort, NonEmpty, MergeAll, Covers, Joins, StartsAt, EndsAt;
    var sorted := Sort(NonEmpty(ranges));
    NonEmptyHolds(ranges);
    SortHolds(NonEmpty(ranges));
    MergeAllOk(sorted);
    forall p
      ensures Covers(sorted, p) <==> Covers(ranges, p)
      ensures Joins(sorted, p) <==> Joins(ranges, p)
      ensures StartsAt(sorted, p) <==> StartsAt(ranges, p)
      ensures EndsAt(sorted, p) <==> EndsAt(ranges, p)
    {
      SameElements(sorted, ranges, p);
    }
  }

  lemma FirstRange(a: seq<Range>, b: seq<Range>)
    requires Separate(a) && Separate(b) && a != [] && b != []
    requires forall p :: Covers(a, p) <==> Covers(b, p)
    requires forall p :: Joins(a, p) <==> Joins(b, p)
    ensures b[0].start <= a[0].start && b[0].end <= a[0].end
  {
    assert Covers(a, a[0].start);
    assert !Joins(a, a[0].end - 1);
  }

  lemma RestOf(a: seq<Range>, p: nat)
    requires Separate(a) && a != []
    ensures Covers(a[1..], p) <==> Covers(a, p) && a[0].end <= p
    ensures Joins(a[1..], p) <==> Joins(a, p) && a[0].end <= p
    ensures Separate(a[1..])
  {
    var rest := a[1..];
    assert forall i :: 0 <= i < |rest| ==> rest[i] == a[i + 1];
    if Covers(a, p) && a[0].end <= p {
      var i :| 0 <= i < |a| && a[i].start <= p < a[i].end;
      assert rest[i - 1] == a[i];
    }
    if Joins(a, p) && a[0].end <= p {
      var i :| 0 <= i < |a| && a[i].start <= p && p + 1 < a[i].end;
      assert rest[i - 1] == a[i];
    }
  }

  /** Separate ranges are determined by the positions they cover and the neighbours they join. */
  lemma {:induction false} SeparateIsUnique(a: seq<Range>, b: seq<Range>)
    requires Separate(a) && Separate(b)
    requires forall p :: Covers(a, p) <==> Covers(b, p)
    requires forall p :: Joins(a, p) <==> Joins(b, p)
    ensures a == b
  {
    assert a != [] ==> Covers(a, a[0].start);
    assert b != [] ==> Covers(b, b[0].start);
    if a != [] && b != [] {
      FirstRange(a, b);
      FirstRange(b, a);
      hide Covers, Joins;
      forall p
        ensures Covers(a[1..], p) <==> Covers(b[1..], p)
        ensures Joins(a[1..], p) <==> Joins(b[1..], p)
        ensures Separate(a[1..]) && Separate(b[1..])
      {
        RestOf(a, p);
        RestOf(b, p);
      }
      SeparateIsUnique(a[1..], b[1..]);
      assert a == [a[0]] + a[1..] && b == [b[0]] + b[1..];
    }
  }

  /* ----- matchRanges ----- */

  function Terms(tokens: seq<Token>): seq<Text> {
    seq(|tokens|, i requires 0 <= i < |tokens| => tokens[i].term)
  }

  /** The candidate matches the term exactly, as a prefix or as a typo. */
  ghost predicate TermMatches(term: Text, candidate: Text, rules: MatchRules) {
    || term == candidate
    || IsPrefixMatch(term, candidate, rules)
    || (rules.typo && MaxTypoEdits(term) > 0 && WithinEdits(CodePoints(term), CodePoints(candidate), MaxTypoEdits(term)))
  }

  ghost predicate IsPhraseRange(tokens: seq<Token>, phrase: seq<Text>, r: Range) {
    exists s :: phrase != [] && OccursAt(phrase, Terms(tokens), false, s)
                && r == Range(tokens[s].start, tokens[s + |phrase| - 1].end)
  }

  ghost predicate IsTermRange(tokens: seq<Token>, terms: seq<Text>, rules: MatchRules, r: Range) {
    exists k, t :: 0 <= k < |tokens| && 0 <= t < |terms| && TermMatches(terms[t], tokens[k].term, rules)
                   && r == Range(tokens[k].start, tokens[k].end)
  }

  /** A phrase of the query, or a token that matches one of its terms. */
  ghost predicate IsMatchRange(tokens: seq<Token>, query: Query, rules: MatchRules, r: Range) {
    || (exists p :: 0 <= p < |query.phrases| && IsPhraseRange(tokens, query.phrases[p], r))
    || IsTermRange(tokens, query.terms, rules, r)
  }

  method PhraseRanges(tokens: seq<Token>, phrase: seq<Text>) returns (ranges: seq<Range>)
    ensures forall r :: r in ranges <==> IsPhraseRange(tokens, phrase, r)
  {
    hide TermFits;
    ranges := [];
    var found := PhraseOccurrences(phrase, Terms(tokens), false);
    for i := 0 to |found|
      invariant |ranges| == i && forall k :: 0 <= k < i ==> ranges[k] == RangeAt(tokens, phrase, found[k])
    {
      ranges := ranges + [RangeAt(tokens, phrase, found[i])];
    }
    forall r
      ensures r in ranges <==> IsPhraseRange(tokens, phrase, r)
    {
      if IsPhraseRange(tokens, phrase, r) {
        var s :| phrase != [] && OccursAt(phrase, Terms(tokens), false, s)
                 && r == Range(tokens[s].start, tokens[s + |phrase| - 1].end);
        assert s in found;
        var k :| 0 <= k < |found| && found[k] == s;
        assert ranges[k] in ranges;
      }
      if r in ranges {
        var k :| 0 <= k < |ranges| && ranges[k] == r;
        assert found[k] in found;
      }
    }
  }

  function RangeAt(tokens: seq<Token>, phrase: seq<Text>, s: int): Range {
    if 0 <= s && 0 < |phrase| && s + |phrase| <= |tokens| then Range(tokens[s].start, tokens[s + |phrase| - 1].end)
    else Range(0, 0)
  }

  method MatchesAny(terms: seq<Text>, candidate: Text, rules: MatchRules) returns (any: bool)
    ensures any <==> exists t :: 0 <= t < |terms| && TermMatches(terms[t], candidate, rules)
  {
    hide WithinEdits, CodePoints;
    for t := 0 to |terms|
      invariant forall k :: 0 <= k < t ==> !TermMatches(terms[k], candidate, rules)
    {
      var match_ := MatchTerm(terms[t], candidate, rules);
      if match_ != NoMatch {
        assert TermMatches(terms[t], candidate, rules);
        return true;
      }
    }
    any := false;
  }

  /** Every match of the query in the tokens, and nothing else. */
  method MatchRanges(tokens: seq<Token>, query: Query, rules: MatchRules) returns (ranges: seq<Range>)
    ensures forall r :: r in ranges <==> IsMatchRange(tokens, query, rules, r)
  {
    hide IsPhraseRange, TermMatches;
    ranges := [];
    for p := 0 to |query.phrases|
      invariant forall r :: r in ranges <==> exists q :: 0 <= q < p && IsPhraseRange(tokens, query.phrases[q], r)
    {
      var more := PhraseRanges(tokens, query.phrases[p]);
      ranges := ranges + more;
    }
    ghost var phrases := ranges;
    for k := 0 to |tokens|
      invariant forall r :: r in ranges <==> r in phrases || IsTermRange(tokens[..k], query.terms, rules, r)
    {
      var any := MatchesAny(query.terms, tokens[k].term, rules);
      ghost var before := ranges;
      if any {
        ranges := ranges + [Range(tokens[k].start, tokens[k].end)];
      }
      forall r
        ensures r in ranges <==> r in phrases || IsTermRange(tokens[..k + 1], query.terms, rules, r)
      {
        NextToken(tokens, k, query.terms, rules, r);
      }
    }
    assert tokens[..|tokens|] == tokens;
  }

  lemma NextToken(tokens: seq<Token>, k: nat, terms: seq<Text>, rules: MatchRules, r: Range)
    requires k < |tokens|
    ensures IsTermRange(tokens[..k + 1], terms, rules, r) <==>
            || IsTermRange(tokens[..k], terms, rules, r)
            || (r == Range(tokens[k].start, tokens[k].end)
                && exists t :: 0 <= t < |terms| && TermMatches(terms[t], tokens[k].term, rules))
  {
    hide TermMatches;
    var shorter, longer := tokens[..k], tokens[..k + 1];
    if IsTermRange(shorter, terms, rules, r) {
      var i, t :| 0 <= i < |shorter| && 0 <= t < |terms| && TermMatches(terms[t], shorter[i].term, rules)
                  && r == Range(shorter[i].start, shorter[i].end);
      assert longer[i] == shorter[i];
    }
    if r == Range(tokens[k].start, tokens[k].end) && exists t :: 0 <= t < |terms| && TermMatches(terms[t], tokens[k].term, rules) {
      assert longer[k] == tokens[k];
    }
    if IsTermRange(longer, terms, rules, r) {
      var i, t :| 0 <= i < |longer| && 0 <= t < |terms| && TermMatches(terms[t], longer[i].term, rules)
                  && r == Range(longer[i].start, longer[i].end);
      if i < k {
        assert longer[i] == shorter[i];
      }
    }
  }
}
