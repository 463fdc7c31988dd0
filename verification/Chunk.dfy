/** packages/search/src/chunk.ts: splitting a long text into overlapping chunks at whitespace. */
module Chunking {
  import opened Numbers
  import opened Utf16

  datatype TextChunk = TextChunk(start: nat, text: Text) {
    function End(): nat {
      start + |text|
    }
  }

  datatype ChunkResult = Chunks(chunks: seq<TextChunk>) | RangeError

  predicate ValidLimits(chunkChars: int, overlapChars: int) {
    chunkChars >= 16 && 0 <= overlapChars && 2 * overlapChars < chunkChars
  }

  /** Moves `cut` back to just after a whitespace unit, stopping at `floor`. */
  function CutBack(text: Text, floor: nat, cut: nat): (r: nat)
    requires floor <= cut <= |text|
    ensures floor <= r <= cut
    ensures r > floor ==> IsWhitespace(text[r - 1])
    decreases cut
  {
    if cut > floor && !IsWhitespace(text[cut - 1]) then CutBack(text, floor, cut - 1) else cut
  }

  /** Three quarters of the window, rounded down. */
  function CutFloor(chunkChars: nat): (floor: nat)
    requires chunkChars >= 16
    ensures chunkChars / 2 + 1 < floor < chunkChars
  {
    chunkChars * 3 / 4
  }

  /** Where the chunk that starts at `start` ends. */
  function ChunkEnd(text: Text, start: nat, chunkChars: nat): (end: nat)
    requires start < |text| && chunkChars >= 16
    ensures start < end <= |text| && end <= start + chunkChars
    ensures end < |text| ==> end >= start + CutFloor(chunkChars)
  {
    if start + chunkChars >= |text| then
      |text|
    else
      var full := start + chunkChars;
      var floor := start + CutFloor(chunkChars);
      var cut := CutBack(text, floor, full);
      var end := if cut > floor then cut else full;
      if IsHighSurrogate(text[end - 1]) then end - 1 else end
  }

  /** The first word start at or after `next`, or `end` when there is none before it. */
  function WordStartFrom(text: Text, next: nat, end: nat): (r: nat)
    requires 0 < next <= end <= |text|
    ensures next <= r <= end
    ensures r == end || IsWhitespace(text[r - 1])
    ensures forall p :: next - 1 <= p < r - 1 ==> !IsWhitespace(text[p])
    decreases end - next
  {
    if next < end && !IsWhitespace(text[next - 1]) then WordStartFrom(text, next + 1, end) else next
  }

  function NextStart(text: Text, start: nat, end: nat, overlapChars: nat): (next: nat)
    requires start < end <= |text|
    ensures start < next <= end
  {
    WordStartFrom(text, Max(start + 1, end - overlapChars), end)
  }

  function ChunksFrom(text: Text, start: nat, chunkChars: nat, overlapChars: nat): seq<TextChunk>
    requires ValidLimits(chunkChars, overlapChars) && start <= |text|
    decreases |text| - start
  {
    if start >= |text| then
      []
    else
      var end := ChunkEnd(text, start, chunkChars);
      var chunk := TextChunk(start, text[start..end]);
      if end >= |text| then
        [chunk]
      else
        [chunk] + ChunksFrom(text, NextStart(text, start, end, overlapChars), chunkChars, overlapChars)
  }

  function ChunksOf(text: Text, chunkChars: nat, overlapChars: nat): seq<TextChunk>
    requires ValidLimits(chunkChars, overlapChars)
  {
    if |text| <= chunkChars then [TextChunk(0, text)] else ChunksFrom(text, 0, chunkChars, overlapChars)
  }

  method FindChunkEnd(text: Text, start: nat, chunkChars: nat) returns (end: nat)
    requires start < |text| && chunkChars >= 16
    ensures end == ChunkEnd(text, start, chunkChars)
  {
    end := if |text| <= start + chunkChars then |text| else start + chunkChars;
    if end < |text| {
      var floor := start + CutFloor(chunkChars);
      var cut := end;
      while cut > floor && !IsWhitespace(text[cut - 1])
        invariant floor <= cut <= end
        invariant CutBack(text, floor, end) == CutBack(text, floor, cut)
      {
        cut := cut - 1;
      }
      end := if cut > floor then cut else end;
      if IsHighSurrogate(text[end - 1]) {
        end := end - 1;
      }
    }
  }

  method FindNextStart(text: Text, start: nat, end: nat, overlapChars: nat) returns (next: nat)
    requires start < end <= |text|
    ensures next == NextStart(text, start, end, overlapChars)
  {
    next := Max(start + 1, end - overlapChars);
    ghost var from := next;
    while next < end && !IsWhitespace(text[next - 1])
      invariant from <= next <= end
      invariant WordStartFrom(text, from, end) == WordStartFrom(text, next, end)
    {
      next := next + 1;
    }
  }

  method ChunkText(text: Text, chunkChars: int, overlapChars: int) returns (result: ChunkResult)
    ensures result.RangeError? <==> !ValidLimits(chunkChars, overlapChars)
    ensures result.Chunks? ==> result.chunks == ChunksOf(text, chunkChars, overlapChars)
  {
    if chunkChars < 16 {
      return RangeError;
    }
    if overlapChars < 0 || 2 * overlapChars >= chunkChars {
      return RangeError;
    }
    if |text| <= chunkChars {
      return Chunks([TextChunk(0, text)]);
    }
    var chunks: seq<TextChunk> := [];
    var start := 0;
    while start < |text|
      invariant 0 <= start <= |text|
      invariant ChunksOf(text, chunkChars, overlapChars) == chunks + ChunksFrom(text, start, chunkChars, overlapChars)
      decreases |text| - start
    {
      var end := FindChunkEnd(text, start, chunkChars);
      chunks := chunks + [TextChunk(start, text[start..end])];
      if end >= |text| {
        return Chunks(chunks);
      }
      start := FindNextStart(text, start, end, overlapChars);
    }
    result := Chunks(chunks);
  }

  /** A piece of the text, no longer than a chunk may be. */
  ghost predicate IsPiece(text: Text, chunk: TextChunk, chunkChars: nat) {
    chunk.End() <= |text| && chunk.text == text[chunk.start..chunk.End()] && |chunk.text| <= chunkChars
  }

  /** The next chunk begins later, without a gap, shares at most `overlapChars` and ends later. */
  ghost predicate Follows(next: TextChunk, chunk: TextChunk, overlapChars: nat) {
    && chunk.start < next.start <= chunk.End() < next.End()
    && chunk.End() - next.start <= overlapChars
  }

  /** Consecutive pieces of the text from `from` to its end. */
  ghost predicate Covers(text: Text, from: nat, chunks: seq<TextChunk>, chunkChars: nat, overlapChars: nat) {
    && |chunks| > 0
    && chunks[0].start == from
    && chunks[|chunks| - 1].End() == |text|
    && (forall i :: 0 <= i < |chunks| ==> IsPiece(text, chunks[i], chunkChars))
    && (forall i, j :: 0 <= i < |chunks| && j == i + 1 && j < |chunks| ==> Follows(chunks[j], chunks[i], overlapChars))
  }

  lemma CoversPrepend(text: Text, chunk: TextChunk, rest: seq<TextChunk>, chunkChars: nat, overlapChars: nat)
    requires IsPiece(text, chunk, chunkChars)
    requires |rest| > 0 && Follows(rest[0], chunk, overlapChars)
    requires Covers(text, rest[0].start, rest, chunkChars, overlapChars)
    ensures Covers(text, chunk.start, [chunk] + rest, chunkChars, overlapChars)
  {
  }

  lemma {:induction false} ChunksFromCover(text: Text, start: nat, chunkChars: nat, overlapChars: nat)
    requires ValidLimits(chunkChars, overlapChars) && start < |text|
    ensures Covers(text, start, ChunksFrom(text, start, chunkChars, overlapChars), chunkChars, overlapChars)
    decreases |text| - start
  {
    hide ChunkEnd, NextStart, Covers, IsPiece, Follows;
    var end := ChunkEnd(text, start, chunkChars);
    FirstChunk(text, start, chunkChars, overlapChars);
    if end < |text| {
      var next := NextStart(text, start, end, overlapChars);
      ChunksFromCover(text, next, chunkChars, overlapChars);
      FirstChunk(text, next, chunkChars, overlapChars);
      NextFollows(text, start, chunkChars, overlapChars);
      var rest := ChunksFrom(text, next, chunkChars, overlapChars);
      CoversPrepend(text, TextChunk(start, text[start..end]), rest, chunkChars, overlapChars);
    } else {
      CoversOne(text, TextChunk(start, text[start..end]), chunkChars, overlapChars);
    }
  }

  lemma FirstChunk(text: Text, start: nat, chunkChars: nat, overlapChars: nat)
    requires ValidLimits(chunkChars, overlapChars) && start < |text|
    ensures var chunks := ChunksFrom(text, start, chunkChars, overlapChars);
            && |chunks| > 0 && chunks[0] == TextChunk(start, text[start..ChunkEnd(text, start, chunkChars)])
            && IsPiece(text, chunks[0], chunkChars)
  {
    hide ChunkEnd, NextStart;
  }

  lemma NextFollows(text: Text, start: nat, chunkChars: nat, overlapChars: nat)
    requires ValidLimits(chunkChars, overlapChars) && start < |text| && ChunkEnd(text, start, chunkChars) < |text|
    ensures var end := ChunkEnd(text, start, chunkChars);
            var next := NextStart(text, start, end, overlapChars);
            Follows(TextChunk(next, text[next..ChunkEnd(text, next, chunkChars)]), TextChunk(start, text[start..end]), overlapChars)
  {
    hide ChunkEnd, WordStartFrom;
  }

  lemma CoversOne(text: Text, chunk: TextChunk, chunkChars: nat, overlapChars: nat)
    requires IsPiece(text, chunk, chunkChars) && chunk.End() == |text|
    ensures Covers(text, chunk.start, [chunk], chunkChars, overlapChars)
  {
  }

  /** The chunks of any text cover it without a gap, within the size and overlap limits. */
  lemma ChunksCover(text: Text, chunkChars: nat, overlapChars: nat)
    requires ValidLimits(chunkChars, overlapChars)
    ensures Covers(text, 0, ChunksOf(text, chunkChars, overlapChars), chunkChars, overlapChars)
  {
    if |text| > chunkChars {
      ChunksFromCover(text, 0, chunkChars, overlapChars);
    }
  }

  ghost predicate Whole(text: Text, chunk: TextChunk) {
    chunk.End() <= |text| && OnBoundary(text, chunk.start) && OnBoundary(text, chunk.End())
  }

  lemma EndOnBoundary(text: Text, start: nat, chunkChars: nat)
    requires chunkChars >= 16 && start < |text| && WellFormed(text)
    ensures OnBoundary(text, ChunkEnd(text, start, chunkChars))
  {
    hide CutBack;
    var end := ChunkEnd(text, start, chunkChars);
    if end < |text| {
      assert PairedAt(text, end);
    }
  }

  lemma StartOnBoundary(text: Text, start: nat, end: nat, overlapChars: nat)
    requires start < end <= |text| && OnBoundary(text, end)
    ensures OnBoundary(text, NextStart(text, start, end, overlapChars))
  {
  }

  lemma {:induction false} ChunksFromKeepPairs(text: Text, start: nat, chunkChars: nat, overlapChars: nat)
    requires ValidLimits(chunkChars, overlapChars) && start < |text|
    requires WellFormed(text) && OnBoundary(text, start)
    ensures forall chunk :: chunk in ChunksFrom(text, start, chunkChars, overlapChars) ==> Whole(text, chunk)
    decreases |text| - start
  {
    hide ChunkEnd, NextStart, WellFormed, OnBoundary;
    var end := ChunkEnd(text, start, chunkChars);
    EndOnBoundary(text, start, chunkChars);
    if end < |text| {
      StartOnBoundary(text, start, end, overlapChars);
      ChunksFromKeepPairs(text, NextStart(text, start, end, overlapChars), chunkChars, overlapChars);
    }
  }

  /** No chunk boundary splits a surrogate pair of well-formed text. */
  lemma ChunksKeepPairs(text: Text, chunkChars: nat, overlapChars: nat)
    requires ValidLimits(chunkChars, overlapChars) && WellFormed(text)
    ensures forall chunk :: chunk in ChunksOf(text, chunkChars, overlapChars) ==> Whole(text, chunk)
  {
    if |text| > chunkChars {
      ChunksFromKeepPairs(text, 0, chunkChars, overlapChars);
    }
  }

  predicate IsWordStart(text: Text, p: nat)
    requires p <= |text|
  {
    p == 0 || IsWhitespace(text[p - 1])
  }

  ghost predicate Holds(chunks: seq<TextChunk>, p: nat, q: nat) {
    exists i :: 0 <= i < |chunks| && chunks[i].start <= p && q <= chunks[i].End()
  }

  lemma {:induction false} ChunksFromHoldPhrase(text: Text, start: nat, chunkChars: nat, overlapChars: nat, p: nat, q: nat)
    requires ValidLimits(chunkChars, overlapChars) && start < |text|
    requires start <= p <= q <= |text| && q - p <= overlapChars && IsWordStart(text, p)
    ensures Holds(ChunksFrom(text, start, chunkChars, overlapChars), p, q)
    decreases |text| - start
  {
    hide ChunkEnd, NextStart, IsWordStart, Holds;
    var end := ChunkEnd(text, start, chunkChars);
    var chunk := TextChunk(start, text[start..end]);
    if q <= end {
      var more := if end >= |text| then [] else ChunksFrom(text, NextStart(text, start, end, overlapChars), chunkChars, overlapChars);
      HoldsFirst(chunk, more, p, q);
    } else {
      var next := NextStart(text, start, end, overlapChars);
      NextStartFirst(text, start, end, overlapChars, p);
      ChunksFromHoldPhrase(text, next, chunkChars, overlapChars, p, q);
      HoldsLater(chunk, ChunksFrom(text, next, chunkChars, overlapChars), p, q);
    }
  }

  /** The next chunk begins no later than a word start that the last one leaves out. */
  lemma NextStartFirst(text: Text, start: nat, end: nat, overlapChars: nat, p: nat)
    requires start < end <= |text| && start < p <= |text| && IsWordStart(text, p) && end - overlapChars <= p
    ensures NextStart(text, start, end, overlapChars) <= p
  {
  }

  lemma HoldsFirst(chunk: TextChunk, more: seq<TextChunk>, p: nat, q: nat)
    requires chunk.start <= p && q <= chunk.End()
    ensures Holds([chunk] + more, p, q) && Holds([chunk], p, q)
  {
    assert ([chunk] + more)[0] == chunk && [chunk][0] == chunk;
  }

  lemma HoldsLater(chunk: TextChunk, rest: seq<TextChunk>, p: nat, q: nat)
    requires Holds(rest, p, q)
    ensures Holds([chunk] + rest, p, q)
  {
    var i :| 0 <= i < |rest| && rest[i].start <= p && q <= rest[i].End();
    assert ([chunk] + rest)[i + 1] == rest[i];
  }

  /** Any stretch of at most `overlapChars` units that begins at a word start lies inside one chunk. */
  lemma ChunksHoldPhrase(text: Text, chunkChars: nat, overlapChars: nat, p: nat, q: nat)
    requires ValidLimits(chunkChars, overlapChars)
    requires p <= q <= |text| && q - p <= overlapChars && IsWordStart(text, p)
    ensures Holds(ChunksOf(text, chunkChars, overlapChars), p, q)
  {
    if |text| > chunkChars {
      ChunksFromHoldPhrase(text, 0, chunkChars, overlapChars, p, q);
    } else {
      assert ChunksOf(text, chunkChars, overlapChars)[0].start <= p;
    }
  }
}
