/** packages/search/src/match.ts: bounded typo tolerance, term matching and phrase search. */
module Matching {
  import opened Numbers
  import opened Utf16

  /* ----- Edit scripts, the reference the distance is measured against ----- */

  datatype Edit<T> = Keep | Insert(added: T) | Delete | Substitute(with: T)

  /** Carried out in order, the edits consume exactly `a` and produce exactly `b`. */
  predicate Transforms<T(==)>(script: seq<Edit<T>>, a: seq<T>, b: seq<T>) {
    if script == [] then a == [] && b == []
    else
      var front, m, n := script[..|script| - 1], |a| - 1, |b| - 1;
      match script[|script| - 1]
      case Keep => m >= 0 && n >= 0 && a[m] == b[n] && Transforms(front, a[..m], b[..n])
      case Insert(x) => n >= 0 && b[n] == x && Transforms(front, a, b[..n])
      case Delete => m >= 0 && Transforms(front, a[..m], b)
      case Substitute(x) => m >= 0 && n >= 0 && b[n] == x && Transforms(front, a[..m], b[..n])
  }

  /** The edits that are not Keep. */
  function Cost<T>(script: seq<Edit<T>>): nat {
    if script == [] then 0 else Cost(script[..|script| - 1]) + (if script[|script| - 1].Keep? then 0 else 1)
  }

  /** `d` is the least cost of any script from `a` to `b`. */
  ghost predicate IsDistance<T(!new)>(a: seq<T>, b: seq<T>, d: int) {
    && (exists script: seq<Edit<T>> :: Transforms(script, a, b) && Cost(script) == d)
    && (forall script: seq<Edit<T>> :: Transforms(script, a, b) ==> d <= Cost(script))
  }

  /* ----- The recurrence the rows are filled by ----- */

  function Lev<T(==)>(a: seq<T>, b: seq<T>): (d: nat)
    decreases |a| + |b|
  {
    if a == [] then |b|
    else if b == [] then |a|
    else
      var m, n := |a| - 1, |b| - 1;
      Min(Min(Lev(a[..m], b) + 1, Lev(a, b[..n]) + 1), Lev(a[..m], b[..n]) + (if a[m] == b[n] then 0 else 1))
  }

  lemma {:induction false} LevIsLeast<T>(script: seq<Edit<T>>, a: seq<T>, b: seq<T>)
    requires Transforms(script, a, b)
    ensures Lev(a, b) <= Cost(script)
  {
    if script != [] {
      var front, last := script[..|script| - 1], script[|script| - 1];
      var a' := if last.Insert? then a else a[..|a| - 1];
      var b' := if last.Delete? then b else b[..|b| - 1];
      LevIsLeast(front, a', b');
    }
  }

  lemma {:induction false} LevIsAttained<T>(a: seq<T>, b: seq<T>) returns (script: seq<Edit<T>>)
    ensures Transforms(script, a, b) && Cost(script) == Lev(a, b)
    decreases |a| + |b|
  {
    if a == [] && b == [] {
      script := [];
    } else {
      var m, n := |a| - 1, |b| - 1;
      var front, last;
      if b == [] || (a != [] && Lev(a, b) == Lev(a[..m], b) + 1) {
        front := LevIsAttained(a[..m], b);
        last := Delete;
      } else if a == [] || Lev(a, b) == Lev(a, b[..n]) + 1 {
        front := LevIsAttained(a, b[..n]);
        last := Insert(b[n]);
      } else {
        front := LevIsAttained(a[..m], b[..n]);
        last := if a[m] == b[n] then Keep else Substitute(b[n]);
      }
      script := front + [last];
      assert script[..|front|] == front;
    }
  }

  lemma LevIsDistance<T(!new)>(a: seq<T>, b: seq<T>)
    ensures IsDistance(a, b, Lev(a, b))
  {
    var script := LevIsAttained(a, b);
    forall script: seq<Edit<T>> | Transforms(script, a, b)
      ensures Lev(a, b) <= Cost(script)
    {
      LevIsLeast(script, a, b);
    }
  }

  /** The distance is at least the difference in length. */
  lemma {:induction false} LevAtLeastGap<T>(a: seq<T>, b: seq<T>)
    ensures Lev(a, b) >= |a| - |b| && Lev(a, b) >= |b| - |a|
    decreases |a| + |b|
  {
    if a != [] && b != [] {
      LevAtLeastGap(a[..|a| - 1], b);
      LevAtLeastGap(a, b[..|b| - 1]);
      LevAtLeastGap(a[..|a| - 1], b[..|b| - 1]);
    }
  }

  /** The distance comes from one of its three neighbours, at no less than the neighbour's value. */
  lemma LevNeighbour<T>(a: seq<T>, b: seq<T>)
    requires a != [] && b != []
    ensures var m, n, d := |a| - 1, |b| - 1, Lev(a, b);
            Lev(a[..m], b) <= d || Lev(a, b[..n]) <= d || Lev(a[..m], b[..n]) <= d
  {
  }

  lemma LevEdges<T>(a: seq<T>)
    ensures Lev(a, []) == |a|
  {
  }

  /** Some entry of every row is no greater than the final distance. */
  lemma {:induction false} RowBelowDistance<T>(a: seq<T>, b: seq<T>, i: nat) returns (j: nat)
    requires i <= |a|
    ensures j <= |b| && Lev(a[..i], b[..j]) <= Lev(a, b)
    decreases |a| + |b|
  {
    hide Lev;
    if i == |a| {
      assert a[..i] == a && b[..|b|] == b;
      j := |b|;
    } else if b == [] {
      j := 0;
      LevEdges(a[..i]);
      LevEdges(a);
    } else {
      var m, n := |a| - 1, |b| - 1;
      LevNeighbour(a, b);
      assert a[..m][..i] == a[..i];
      if Lev(a[..m], b) <= Lev(a, b) {
        j := RowBelowDistance(a[..m], b, i);
      } else {
        if Lev(a, b[..n]) <= Lev(a, b) {
          j := RowBelowDistance(a, b[..n], i);
        } else {
          j := RowBelowDistance(a[..m], b[..n], i);
        }
        assert b[..n][..j] == b[..j];
      }
    }
  }

  /* ----- Code points ----- */

  /** [...text]: surrogate pairs are one element, everything else stands for itself. */
  function CodePoints(text: Text): seq<int> {
    if text == [] then []
    else if |text| >= 2 && IsHighSurrogate(text[0]) && IsLowSurrogate(text[1]) then
      [0x1_0000 + (text[0] - 0xD800) * 0x400 + (text[1] - 0xDC00)] + CodePoints(text[2..])
    else
      [text[0]] + CodePoints(text[1..])
  }

  /** The units that hold a code point (section 2.1 of RFC 2781). */
  function Units(point: int): seq<int> {
    if point < 0x1_0000 then [point] else [0xD800 + (point - 0x1_0000) / 0x400, 0xDC00 + (point - 0x1_0000) % 0x400]
  }

  function AllUnits(points: seq<int>): seq<int> {
    if points == [] then [] else Units(points[0]) + AllUnits(points[1..])
  }

  /** Code points, or lone surrogates, that make up the text; the halves of a pair never stand apart. */
  ghost predicate AreCodePoints(points: seq<int>, text: Text) {
    && (forall i :: 0 <= i < |points| ==> 0 <= points[i] < 0x11_0000)
    && (forall i :: 0 < i < |points| ==> !(0xD800 <= points[i - 1] < 0xDC00 <= points[i] < 0xE000))
    && AllUnits(points) == text
  }

  lemma CodePointsFollow(point: int, rest: seq<int>, text: Text)
    requires 0 <= point < 0x11_0000 && AreCodePoints(rest, text)
    requires rest != [] ==> !(0xD800 <= point < 0xDC00 <= rest[0] < 0xE000)
    requires forall u :: u in Units(point) ==> 0 <= u < 0x1_0000
    ensures AreCodePoints([point] + rest, Units(point) + text)
  {
    hide Units;
    var points := [point] + rest;
    assert points[1..] == rest;
    forall i | 0 < i < |points|
      ensures !(0xD800 <= points[i - 1] < 0xDC00 <= points[i] < 0xE000)
    {
      assert points[i] == rest[i - 1] && (i > 1 ==> points[i - 1] == rest[i - 2]);
    }
  }

  lemma {:induction false} CodePointsAre(text: Text)
    ensures AreCodePoints(CodePoints(text), text)
  {
    if text != [] {
      var points := CodePoints(text);
      var n := |Units(points[0])|;
      assert Units(points[0]) == text[..n] && points[1..] == CodePoints(text[n..]);
      CodePointsAre(text[n..]);
      assert n < |text| && points[1] < 0x1_0000 ==> points[1] == text[n];
      CodePointsFollow(points[0], points[1..], text[n..]);
      assert points == [points[0]] + points[1..] && text == text[..n] + text[n..];
    }
  }

  /** The rest of some code points, and of the text they make up. */
  lemma CodePointsRest(points: seq<int>, text: Text)
    requires points != [] && AreCodePoints(points, text)
    ensures var n := |Units(points[0])|;
            n <= |text| && Units(points[0]) == text[..n] && AreCodePoints(points[1..], text[n..])
  {
    hide Units;
    var rest := points[1..];
    assert forall i :: 0 <= i < |rest| ==> rest[i] == points[i + 1];
  }

  /** A pair begins the text exactly when the first code point takes one. */
  lemma FirstPair(points: seq<int>, text: Text)
    requires points != [] && AreCodePoints(points, text)
    ensures |text| >= 2 && IsHighSurrogate(text[0]) && IsLowSurrogate(text[1]) <==> points[0] >= 0x1_0000
  {
    CodePointsRest(points, text);
    if points[0] < 0x1_0000 && |text| > 1 {
      CodePointsRest(points[1..], text[1..]);
      assert text[1] == text[1..][0] == Units(points[1])[0];
    }
  }

  lemma {:induction false} CodePointsOnly(points: seq<int>, text: Text)
    requires AreCodePoints(points, text)
    ensures points == CodePoints(text)
    decreases |points|
  {
    if points != [] {
      CodePointsRest(points, text);
      FirstPair(points, text);
      CodePointsOnly(points[1..], text[|Units(points[0])|..]);
      hide AreCodePoints;
      assert points == [points[0]] + points[1..];
    }
  }

  /** The code points of a text are the only ones that make it up. */
  lemma CodePointsExactly(points: seq<int>, text: Text)
    ensures points == CodePoints(text) <==> AreCodePoints(points, text)
  {
    CodePointsAre(text);
    if AreCodePoints(points, text) {
      CodePointsOnly(points, text);
    }
  }

  /* ----- boundedEditDistance ----- */

  /** Entries 0..n of row `i`. */
  ghost predicate IsRow(row: seq<int>, a: seq<int>, b: seq<int>, i: nat, n: nat)
    requires i <= |a| && n <= |b|
  {
    |row| == n + 1 && forall j :: 0 <= j <= n ==> row[j] == Lev(a[..i], b[..j])
  }

  lemma LevCell(a: seq<int>, b: seq<int>, i: nat, j: nat)
    requires i < |a| && j < |b|
    ensures Lev(a[..i + 1], b[..j + 1])
         == Min(Min(Lev(a[..i], b[..j + 1]) + 1, Lev(a[..i + 1], b[..j]) + 1),
                Lev(a[..i], b[..j]) + (if a[i] == b[j] then 0 else 1))
  {
    assert a[..i + 1][..i] == a[..i] && b[..j + 1][..j] == b[..j];
  }

  /** Row `i + 1` from row `i`, with its least entry. */
  method NextRow(previous: seq<int>, a: seq<int>, b: seq<int>, i: nat) returns (current: seq<int>, rowMin: int)
    requires i < |a| && IsRow(previous, a, b, i, |b|)
    ensures IsRow(current, a, b, i + 1, |b|)
    ensures forall j :: 0 <= j < |current| ==> rowMin <= current[j]
  {
    hide Lev;
    LevEdges(a[..i + 1]);
    current, rowMin := [i + 1], i + 1;
    for j := 0 to |b|
      invariant IsRow(current, a, b, i + 1, j)
      invariant forall k :: 0 <= k < |current| ==> rowMin <= current[k]
    {
      var cost := if a[i] == b[j] then 0 else 1;
      var value := Min(Min(previous[j + 1] + 1, current[j] + 1), previous[j] + cost);
      LevCell(a, b, i, j);
      current := current + [value];
      if value < rowMin {
        rowMin := value;
      }
    }
  }

  /** The distance over code points when it is at most `max`, and `max + 1` otherwise. */
  method BoundedEditDistance(left: Text, right: Text, max: int) returns (r: int)
    ensures r == Min(Lev(CodePoints(left), CodePoints(right)), max + 1)
  {
    var a, b := CodePoints(left), CodePoints(right);
    LevAtLeastGap(a, b);
    if |a| - |b| > max || |b| - |a| > max {
      return max + 1;
    }
    var previous: seq<int> := seq(|b| + 1, (index: nat) => index);
    for i := 0 to |a|
      invariant IsRow(previous, a, b, i, |b|)
    {
      var current, rowMin := NextRow(previous, a, b, i);
      if rowMin > max {
        var j := RowBelowDistance(a, b, i + 1);
        assert current[j] >= rowMin;
        return max + 1;
      }
      previous := current;
    }
    assert a[..|a|] == a && b[..|b|] == b;
    var distance := previous[|b|];
    r := if distance > max then max + 1 else distance;
  }

  /** Some script makes at most `max` edits. */
  ghost predicate WithinEdits(a: seq<int>, b: seq<int>, max: int) {
    exists script: seq<Edit<int>> :: Transforms(script, a, b) && Cost(script) <= max
  }

  /** What the bounded distance promises, in terms of edit scripts alone. */
  lemma BoundedDistanceMeaning(left: Text, right: Text, max: int, r: int)
    requires r == Min(Lev(CodePoints(left), CodePoints(right)), max + 1)
    ensures r <= max ==> IsDistance(CodePoints(left), CodePoints(right), r)
    ensures r <= max <==> WithinEdits(CodePoints(left), CodePoints(right), max)
  {
    var a, b := CodePoints(left), CodePoints(right);
    LevIsDistance(a, b);
    var best := LevIsAttained(a, b);
    hide Lev, Transforms, Cost, CodePoints;
    if r <= max {
      assert Cost(best) <= max;
    }
  }

  /* ----- matchTerm ----- */

  datatype TermMatch = Exact | Prefix | Typo | NoMatch

  datatype MatchRules = MatchRules(minPrefix: int, typo: bool)

  /** No typos under 5 code points, one edit from 5 to 8, two from 9. */
  function MaxTypoEdits(term: Text): nat {
    var length := |CodePoints(term)|;
    if length < 5 then 0 else if length < 9 then 1 else 2
  }

  predicate IsPrefixMatch(query: Text, candidate: Text, rules: MatchRules) {
    rules.minPrefix > 0 && |candidate| > |query| && query <= candidate && |CodePoints(query)| >= rules.minPrefix
  }

  /** Exact beats prefix beats typo; a typo is one edit in 5 to 8 code points, or up to two in 9 or more. */
  method MatchTerm(query: Text, candidate: Text, rules: MatchRules) returns (r: TermMatch)
    ensures r == Exact <==> query == candidate
    ensures r == Prefix <==> query < candidate && 0 < rules.minPrefix <= |CodePoints(query)|
    ensures var a, b := CodePoints(query), CodePoints(candidate);
            r == Typo <==> r != Exact && r != Prefix && rules.typo
                           && |a| >= 5 && WithinEdits(a, b, if |a| < 9 then 1 else 2)
  {
    hide CodePoints, WithinEdits;
    if query == candidate {
      return Exact;
    }
    if IsPrefixMatch(query, candidate, rules) {
      return Prefix;
    }
    if rules.typo {
      var max := MaxTypoEdits(query);
      if max > 0 {
        var distance := BoundedEditDistance(query, candidate, max);
        BoundedDistanceMeaning(query, candidate, max, distance);
        if distance <= max {
          return Typo;
        }
      }
    }
    r := NoMatch;
  }

  /* ----- phraseOccurrences ----- */

  const TEXT_MIN_PREFIX := 2

  predicate TermFits(term: Text, candidate: Text, mayBePrefix: bool) {
    candidate == term || (mayBePrefix && |CodePoints(term)| >= TEXT_MIN_PREFIX && term <= candidate)
  }

  /** The phrase stands at `start`; only its last term may be a prefix. */
  predicate OccursAt(phrase: seq<Text>, sequence: seq<Text>, lastIsPrefix: bool, start: int) {
    && 0 <= start && start + |phrase| <= |sequence|
    && forall k :: 0 <= k < |phrase| ==> TermFits(phrase[k], sequence[start + k], k == |phrase| - 1 && lastIsPrefix)
  }

  /** The last term of a phrase is the candidate or, where that is allowed, two code points or more that begin it. */
  ghost predicate EndsWith(term: Text, candidate: Text, lastIsPrefix: bool) {
    term == candidate || (lastIsPrefix && term < candidate && |CodePoints(term)| >= 2)
  }

  /** The sequence is `before`, the terms of a phrase save its last, a last term, and what comes after. */
  ghost predicate IsCut(sequence: seq<Text>, before: seq<Text>, phrase: seq<Text>, last: Text, after: seq<Text>)
    requires phrase != []
  {
    sequence == before + phrase[..|phrase| - 1] + [last] + after
  }

  /** The phrase stands there: all its terms but the last as they are, and then the last or what it begins. */
  lemma OccursMeans(phrase: seq<Text>, sequence: seq<Text>, lastIsPrefix: bool, start: nat)
    requires phrase != []
    ensures OccursAt(phrase, sequence, lastIsPrefix, start)
            <==> exists before, last, after ::
                   && IsCut(sequence, before, phrase, last, after) && |before| == start
                   && EndsWith(phrase[|phrase| - 1], last, lastIsPrefix)
  {
    hide CodePoints;
    var m := |phrase| - 1;
    if OccursAt(phrase, sequence, lastIsPrefix, start) {
      var before, last, after := sequence[..start], sequence[start + m], sequence[start + m + 1..];
      assert forall k :: 0 <= k < m ==> TermFits(phrase[k], sequence[start + k], false);
      assert sequence[start..start + m] == phrase[..m];
      assert IsCut(sequence, before, phrase, last, after);
    }
    if before, last, after :|
      && IsCut(sequence, before, phrase, last, after) && |before| == start
      && EndsWith(phrase[m], last, lastIsPrefix)
    {
      forall k | 0 <= k < |phrase|
        ensures TermFits(phrase[k], sequence[start + k], k == m && lastIsPrefix)
      {
        assert k < m ==> sequence[start + k] == phrase[..m][k];
      }
    }
  }

  /** Exactly the places where a non-empty phrase occurs, in order. */
  method PhraseOccurrences(phrase: seq<Text>, sequence: seq<Text>, lastIsPrefix: bool) returns (found: seq<int>)
    ensures forall i, j :: 0 <= i < j < |found| ==> found[i] < found[j]
    ensures forall s :: s in found <==> phrase != [] && OccursAt(phrase, sequence, lastIsPrefix, s)
  {
    hide TermFits;
    found := [];
    if |phrase| == 0 || |phrase| > |sequence| {
      return;
    }
    var start := 0;
    while start + |phrase| <= |sequence|
      invariant 0 <= start <= |sequence| - |phrase| + 1
      invariant forall i, j :: 0 <= i < j < |found| ==> found[i] < found[j]
      invariant forall k :: 0 <= k < |found| ==> found[k] < start
      invariant forall s :: s in found <==> s < start && OccursAt(phrase, sequence, lastIsPrefix, s)
    {
      var offset := 0;
      while offset < |phrase| && TermFits(phrase[offset], sequence[start + offset], offset == |phrase| - 1 && lastIsPrefix)
        invariant 0 <= offset <= |phrase|
        invariant forall k :: 0 <= k < offset ==> TermFits(phrase[k], sequence[start + k], k == |phrase| - 1 && lastIsPrefix)
      {
        offset := offset + 1;
      }
      if offset == |phrase| {
        found := found + [start];
      }
      start := start + 1;
    }
  }
}
