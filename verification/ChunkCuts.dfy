/** packages/search/src/chunk.ts: where chunks end and where the next ones begin. */
module ChunkCuts {
  import opened Utf16
  import opened Chunking

  /** White space in the last quarter of the `chunkChars` units from `start` on. */
  ghost predicate SpaceNearEnd(text: Text, start: nat, chunkChars: nat) {
    exists p: nat :: start + chunkChars * 3 / 4 <= p < start + chunkChars && p < |text| && IsWhitespace(text[p])
  }

  /**
   * A chunk reaches the end of the text if it can. Else it ends just after the last white space of its last
   * quarter; without any it has full length, less a high surrogate at its end.
   */
  ghost predicate EndsRight(text: Text, start: nat, end: nat, chunkChars: nat) {
    var full := start + chunkChars;
    if full >= |text| then end == |text|
    else if SpaceNearEnd(text, start, chunkChars) then
      && start + chunkChars * 3 / 4 < end <= full && IsWhitespace(text[end - 1])
      && forall p :: end <= p < full ==> !IsWhitespace(text[p])
    else end == if full > 0 && IsHighSurrogate(text[full - 1]) then full - 1 else full
  }

  /** The next chunk begins at the first word start at most `overlapChars` before the end, or at the end. */
  ghost predicate BeginsRight(text: Text, start: nat, end: nat, overlapChars: nat, next: nat) {
    var from := if end - overlapChars > start then end - overlapChars else start + 1;
    && from <= next <= end <= |text| && (next == end || IsWordStart(text, next))
    && forall p :: from <= p < next ==> !IsWordStart(text, p)
  }

  lemma {:induction false} CutBackStops(text: Text, floor: nat, cut: nat)
    requires floor <= cut <= |text|
    ensures forall p :: CutBack(text, floor, cut) <= p < cut ==> !IsWhitespace(text[p])
    decreases cut
  {
    hide IsWhitespace;
    if cut > floor && !IsWhitespace(text[cut - 1]) {
      CutBackStops(text, floor, cut - 1);
    }
  }

  lemma EndIsRight(text: Text, start: nat, chunkChars: nat)
    requires start < |text| && chunkChars >= 16
    ensures EndsRight(text, start, ChunkEnd(text, start, chunkChars), chunkChars)
  {
    hide CutBack;
    var full := start + chunkChars;
    if full < |text| {
      var floor := start + CutFloor(chunkChars);
      CutBackStops(text, floor, full);
      var cut := CutBack(text, floor, full);
      if cut > floor {
        assert IsWhitespace(text[cut - 1]);
      }
    }
  }

  lemma NextIsRight(text: Text, start: nat, end: nat, overlapChars: nat)
    requires start < end <= |text|
    ensures BeginsRight(text, start, end, overlapChars, NextStart(text, start, end, overlapChars))
  {
    hide IsWhitespace;
    var next := NextStart(text, start, end, overlapChars);
    var from := if end - overlapChars > start then end - overlapChars else start + 1;
    forall p | from <= p < next
      ensures !IsWordStart(text, p)
    {
      assert !IsWhitespace(text[p - 1]);
    }
  }

  /** Every chunk ends, and every chunk after another begins, where it should. */
  ghost predicate AreCutRight(text: Text, chunks: seq<TextChunk>, chunkChars: nat, overlapChars: nat) {
    && (forall i :: 0 <= i < |chunks| ==> EndsRight(text, chunks[i].start, chunks[i].End(), chunkChars))
    && (forall i, j :: 0 <= i && j == i + 1 < |chunks| ==>
          BeginsRight(text, chunks[i].start, chunks[i].End(), overlapChars, chunks[j].start))
  }

  lemma {:induction false} ChunksFromCutRight(text: Text, start: nat, chunkChars: nat, overlapChars: nat)
    requires ValidLimits(chunkChars, overlapChars) && start < |text|
    ensures var chunks := ChunksFrom(text, start, chunkChars, overlapChars);
            chunks != [] && chunks[0].start == start && AreCutRight(text, chunks, chunkChars, overlapChars)
    decreases |text| - start
  {
    hide ChunkEnd, NextStart, EndsRight, BeginsRight;
    var end := ChunkEnd(text, start, chunkChars);
    EndIsRight(text, start, chunkChars);
    if end < |text| {
      var next := NextStart(text, start, end, overlapChars);
      NextIsRight(text, start, end, overlapChars);
      ChunksFromCutRight(text, next, chunkChars, overlapChars);
    }
  }

  /** A text that is longer than a chunk is cut at white space near the end of each chunk where there is any. */
  lemma ChunksAreCutRight(text: Text, chunkChars: nat, overlapChars: nat)
    requires ValidLimits(chunkChars, overlapChars)
    ensures AreCutRight(text, ChunksOf(text, chunkChars, overlapChars), chunkChars, overlapChars)
  {
    hide ChunksFrom;
    if |text| > chunkChars {
      ChunksFromCutRight(text, 0, chunkChars, overlapChars);
    }
  }

  /** The limits that are accepted: chunks of 16 units or more that overlap by less than half their length. */
  lemma LimitsExactly(chunkChars: int, overlapChars: int)
    ensures ValidLimits(chunkChars, overlapChars) <==> chunkChars > 15 && overlapChars >= 0 && overlapChars < chunkChars - overlapChars
  {
  }
}
