/** packages/search/src/search-index.ts: which sections of a document are indexed, and how much of each. */
module IndexedDocuments {
  import opened Wrappers
  import opened Utf16
  import opened Chunking
  import opened SearchRecords
  import opened IndexModel

  /* ----- What a document asks for ----- */

  /** The given sections by rising ordinal. */
  ghost predicate InOrdinalOrder(s: seq<SectionInput>, given: seq<SectionInput>) {
    && |s| == |given| && (forall i, j :: 0 <= i < j < |s| ==> s[i].ordinal < s[j].ordinal)
    && forall x :: x in s <==> x in given
  }

  function HeadingSize(x: SectionInput, limits: Limits): nat {
    if x.heading.None? then 0
    else if |x.heading.value| < limits.maxTitleChars then |x.heading.value| else limits.maxTitleChars
  }

  /** The characters of some sections: headings, as far as they are kept, and texts. */
  function Total(s: seq<SectionInput>, limits: Limits): nat {
    if s == [] then 0 else HeadingSize(s[0], limits) + |s[0].text| + Total(s[1..], limits)
  }

  /** What is left for the text of section `i` when all sections before it are indexed whole. */
  function RoomFor(s: seq<SectionInput>, i: nat, room: int, limits: Limits): int
    requires i < |s|
  {
    room - Total(s[..i], limits) - HeadingSize(s[i], limits)
  }

  /** Id, ordinal and kept heading, with chunks that cover the first `kept` characters of the text. */
  ghost predicate IsListed(x: SectionInput, y: Section, kept: int, limits: Limits) {
    && y.sectionId == x.sectionId && y.ordinal == x.ordinal
    && y.heading == (if x.heading.None? then None else Some(x.heading.value[..HeadingSize(x, limits)]))
    && 0 <= kept <= |x.text| && (y.cut <==> kept < |x.text|)
    && Chunking.Covers(x.text[..kept], 0, y.chunks, limits.chunkChars, limits.chunkOverlapChars)
  }

  /** As much of the text as there is room for. */
  function Kept(s: seq<SectionInput>, i: nat, room: int, limits: Limits): int
    requires i < |s|
  {
    if RoomFor(s, i, room, limits) < |s[i].text| then RoomFor(s, i, room, limits) else |s[i].text|
  }

  /** The first sections, each with as much text as there is room for, up to where the room ends. */
  ghost predicate AreListed(ys: seq<Section>, s: seq<SectionInput>, room: int, limits: Limits) {
    && |ys| <= |s|
    && (forall i :: 0 <= i < |ys| ==> IsListed(s[i], ys[i], Kept(s, i, room, limits), limits))
    && (forall i :: 0 <= i < |ys| - 1 ==> !ys[i].cut)
  }

  /** The room ends with a text that is cut, or before a heading that does not fit. */
  ghost predicate RoomEnds(ys: seq<Section>, s: seq<SectionInput>, room: int, limits: Limits)
    requires |ys| <= |s|
  {
    (ys != [] && ys[|ys| - 1].cut) || (|ys| < |s| && RoomFor(s, |ys|, room, limits) < 0)
  }

  ghost predicate AnyCut(ys: seq<Section>) {
    exists i :: 0 <= i < |ys| && ys[i].cut
  }

  /* ----- The sections that are indexed ----- */

  lemma RestOfOrder(s: seq<SectionInput>)
    requires s != [] && forall i, j :: 0 <= i < j < |s| ==> s[i].ordinal < s[j].ordinal
    ensures forall x :: x in s[1..] <==> x in s && x != s[0]
    ensures forall x :: x in s ==> x == s[0] || s[0].ordinal < x.ordinal
  {
    assert s == [s[0]] + s[1..];
  }

  lemma FirstOfOrder(s: seq<SectionInput>, t: seq<SectionInput>)
    requires s != [] && t != [] && s[0] in t && t[0] in s
    requires forall i, j :: 0 <= i < j < |s| ==> s[i].ordinal < s[j].ordinal
    requires forall i, j :: 0 <= i < j < |t| ==> t[i].ordinal < t[j].ordinal
    ensures s[0] == t[0]
  {
    var i :| 0 <= i < |t| && t[i] == s[0];
    var k :| 0 <= k < |s| && s[k] == t[0];
    assert i > 0 ==> t[0].ordinal < t[i].ordinal;
    assert k > 0 ==> s[0].ordinal < s[k].ordinal;
  }

  lemma {:induction false} OneOrder(s: seq<SectionInput>, t: seq<SectionInput>)
    requires |s| == |t| && (forall x :: x in s <==> x in t)
    requires forall i, j :: 0 <= i < j < |s| ==> s[i].ordinal < s[j].ordinal
    requires forall i, j :: 0 <= i < j < |t| ==> t[i].ordinal < t[j].ordinal
    ensures s == t
  {
    if s != [] {
      assert s[0] in t && t[0] in s;
      FirstOfOrder(s, t);
      RestOfOrder(s);
      RestOfOrder(t);
      OneOrder(s[1..], t[1..]);
      assert s == [s[0]] + s[1..] && t == [t[0]] + t[1..];
    }
  }

  lemma TotalPrepend(x: SectionInput, rest: seq<SectionInput>, i: nat, room: int, limits: Limits)
    requires i < |rest|
    ensures RoomFor([x] + rest, i + 1, room, limits) == RoomFor(rest, i, room - HeadingSize(x, limits) - |x.text|, limits)
    ensures Kept([x] + rest, i + 1, room, limits) == Kept(rest, i, room - HeadingSize(x, limits) - |x.text|, limits)
  {
    assert ([x] + rest)[..i + 1][1..] == rest[..i];
  }

  lemma KeptFirst(x: SectionInput, rest: seq<SectionInput>, room: int, limits: Limits)
    ensures RoomFor([x] + rest, 0, room, limits) == room - HeadingSize(x, limits)
    ensures Kept([x] + rest, 0, room, limits) ==
            if room - HeadingSize(x, limits) < |x.text| then room - HeadingSize(x, limits) else |x.text|
  {
    assert ([x] + rest)[..0] == [];
  }

  lemma ClippedHeading(x: SectionInput, limits: Limits)
    ensures ClipHeading(x.heading, limits.maxTitleChars) ==
            (if x.heading.None? then None else Some(x.heading.value[..HeadingSize(x, limits)]))
    ensures HeadingChars(ClipHeading(x.heading, limits.maxTitleChars)) == HeadingSize(x, limits)
  {
    if x.heading.Some? {
      var heading := x.heading.value;
      assert heading[..|heading|] == heading;
    }
  }

  lemma ListedFirst(x: SectionInput, budget: nat, limits: Limits)
    requires limits.Ok() && AcceptsSection(x)
    ensures var y, kept := IndexSection(x, budget, limits), if budget < |x.text| then budget else |x.text|;
            && IsListed(x, y, kept, limits)
            && (!y.cut ==> y.Chars() == HeadingSize(x, limits) + |x.text|)
  {
    hide Chunking.Covers, ChunksOf, ClipHeading, HeadingSize, IsSectionId;
    IndexSectionChars(x, budget, limits);
    ClippedHeading(x, limits);
    ChunksCover(Clip(x.text, budget), limits.chunkChars, limits.chunkOverlapChars);
    assert x.text[..|x.text|] == x.text;
  }

  lemma FirstListed(x: SectionInput, rest: seq<SectionInput>, room: int, limits: Limits)
    requires limits.Ok() && AcceptsSection(x) && room >= HeadingSize(x, limits)
    ensures var all, y := [x] + rest, IndexSection(x, room - HeadingSize(x, limits), limits);
            && IsListed(x, y, Kept(all, 0, room, limits), limits)
            && (!y.cut ==> y.Chars() == HeadingSize(x, limits) + |x.text|)
  {
    hide *;
    KeptFirst(x, rest, room, limits);
    ListedFirst(x, room - HeadingSize(x, limits), limits);
  }

  lemma CutPrepend(y: Section, ys: seq<Section>)
    requires !y.cut
    ensures AnyCut([y] + ys) <==> AnyCut(ys)
  {
    var all := [y] + ys;
    if i :| 0 <= i < |all| && all[i].cut {
      assert ys[i - 1].cut;
    }
    if i :| 0 <= i < |ys| && ys[i].cut {
      assert all[i + 1].cut;
    }
  }

  lemma RoomEndsLater(x: SectionInput, rest: seq<SectionInput>, y: Section, ys: seq<Section>, room: int, limits: Limits)
    requires !y.cut && |ys| <= |rest|
    ensures RoomEnds([y] + ys, [x] + rest, room, limits) <==>
            RoomEnds(ys, rest, room - HeadingSize(x, limits) - |x.text|, limits)
  {
    hide RoomFor, Kept, HeadingSize;
    if |ys| < |rest| {
      TotalPrepend(x, rest, |ys|, room, limits);
    }
  }

  lemma ListedPrepend(x: SectionInput, rest: seq<SectionInput>, y: Section, ys: seq<Section>, room: int, limits: Limits)
    requires IsListed(x, y, Kept([x] + rest, 0, room, limits), limits) && !y.cut
    requires AreListed(ys, rest, room - HeadingSize(x, limits) - |x.text|, limits)
    ensures AreListed([y] + ys, [x] + rest, room, limits)
    ensures RoomEnds([y] + ys, [x] + rest, room, limits) <==>
            RoomEnds(ys, rest, room - HeadingSize(x, limits) - |x.text|, limits)
    ensures AnyCut([y] + ys) <==> AnyCut(ys)
  {
    hide IsListed, RoomFor, Kept, HeadingSize, RoomEnds;
    CutPrepend(y, ys);
    RoomEndsLater(x, rest, y, ys, room, limits);
    var all, listed := [x] + rest, [y] + ys;
    forall i | 0 <= i < |listed|
      ensures IsListed(all[i], listed[i], Kept(all, i, room, limits), limits)
    {
      if i > 0 {
        assert all[i] == rest[i - 1] && listed[i] == ys[i - 1];
        TotalPrepend(x, rest, i - 1, room, limits);
      }
    }
  }

  lemma ListedLast(x: SectionInput, rest: seq<SectionInput>, y: Section, room: int, limits: Limits)
    requires IsListed(x, y, Kept([x] + rest, 0, room, limits), limits) && y.cut
    ensures AreListed([y], [x] + rest, room, limits) && RoomEnds([y], [x] + rest, room, limits) && AnyCut([y])
  {
    hide IsListed, RoomFor, Kept;
    assert [y][0].cut;
  }

  lemma NothingListed(s: seq<SectionInput>, room: int, limits: Limits)
    ensures AreListed([], s, room, limits) && !AnyCut([])
    ensures RoomEnds([], s, room, limits) <==> s != [] && room < HeadingSize(s[0], limits)
  {
    assert s[..0] == [];
  }

  lemma BudgetIs(x: SectionInput, rest: seq<SectionInput>, used: nat, cap: int, limits: Limits)
    ensures Budget([x] + rest, used, cap, limits) == cap - used - HeadingSize(x, limits)
  {
  }

  /** Indexing lists the first sections up to where the room ends, and says when something is missing. */
  lemma {:induction false} IndexingLists(s: seq<SectionInput>, used: nat, cap: int, limits: Limits)
    requires limits.Ok() && InputsOk(s)
    ensures var r := IndexSections(s, used, cap, limits);
            && AreListed(r.sections, s, cap - used, limits)
            && (|r.sections| == |s| || RoomEnds(r.sections, s, cap - used, limits))
            && (r.truncated <==> |r.sections| < |s| || AnyCut(r.sections))
  {
    hide *;
    if s == [] {
      NothingListed(s, cap - used, limits);
      NothingToIndex(used, cap, limits);
    } else {
      var x, rest := s[0], s[1..];
      assert s == [x] + rest;
      FirstAccepted(s);
      BudgetIs(x, rest, used, cap, limits);
      var budget := Budget(s, used, cap, limits);
      if budget < 0 {
        IndexSectionsStop(s, used, cap, limits);
        NothingListed(s, cap - used, limits);
      } else {
        var y := IndexSection(x, budget, limits);
        FirstListed(x, rest, cap - used, limits);
        IndexSectionsStep(s, used, cap, limits, y);
        if y.cut {
          ListedLast(x, rest, y, cap - used, limits);
        } else {
          IndexingLists(rest, used + y.Chars(), cap, limits);
          ListedPrepend(x, rest, y, IndexSections(rest, used + y.Chars(), cap, limits).sections, cap - used, limits);
        }
      }
    }
  }

  lemma NothingToIndex(used: nat, cap: int, limits: Limits)
    requires limits.Ok()
    ensures IndexSections([], used, cap, limits) == Indexed([], false)
  {
  }

  /* ----- The document that is stored ----- */

  /** The characters a document may have: its own limit, and what the rest of the corpus leaves. */
  ghost function RoomOf(m: Model, taskId: string, limits: Limits): int {
    var left := limits.maxCorpusChars - Chars(m.(documents := m.documents - {taskId}));
    if left < limits.maxDocumentChars then left else limits.maxDocumentChars
  }

  /** The indexed form of the sections `s` of a document. */
  ghost predicate IsIndexed(d: Document, s: seq<SectionInput>, room: int, limits: Limits) {
    && AreListed(d.sections, s, room, limits) && |d.sections| <= limits.maxSectionsPerDocument
    && (|d.sections| == |s| || |d.sections| == limits.maxSectionsPerDocument || RoomEnds(d.sections, s, room, limits))
    && (d.truncated <==> |d.sections| < |s| || AnyCut(d.sections))
  }

  lemma SortedIs(given: seq<SectionInput>, s: seq<SectionInput>)
    requires DistinctOrdinals(given) && InOrdinalOrder(s, given)
    ensures SortSections(given) == s
  {
    OneOrder(SortSections(given), s);
  }

  /** A document's sections have an order. */
  lemma OrderExists(document: DocumentInput) returns (s: seq<SectionInput>)
    requires AcceptsDocument(document)
    ensures InOrdinalOrder(s, document.sections)
  {
    s := SortSections(document.sections);
  }

  lemma OfferedAre(document: DocumentInput, s: seq<SectionInput>, limits: Limits)
    requires AcceptsDocument(document) && InOrdinalOrder(s, document.sections)
    ensures OfferedSections(document, limits) == if |s| > limits.maxSectionsPerDocument then s[..limits.maxSectionsPerDocument] else s
    ensures InputsOk(s)
  {
    SortedIs(document.sections, s);
    forall i | 0 <= i < |s|
      ensures AcceptsSection(s[i])
    {
      assert s[i] in document.sections;
    }
  }

  /** What fits some first sections fits them among all. */
  lemma FirstOfAll(ys: seq<Section>, s: seq<SectionInput>, n: nat, room: int, limits: Limits)
    requires n <= |s| && AreListed(ys, s[..n], room, limits)
    ensures AreListed(ys, s, room, limits) && (RoomEnds(ys, s[..n], room, limits) ==> RoomEnds(ys, s, room, limits))
  {
    hide IsListed, HeadingSize;
    assert forall i :: 0 <= i < n ==> s[..n][..i] == s[..i];
  }

  /**
   * Replacing a document lists its sections by rising ordinal, each with its id, its heading cut to size and
   * chunks that cover as much of its text as there is room for. It stops only at the section limit, before the
   * first heading that does not fit, or after the first text that is cut; and the document counts as truncated
   * exactly when a section is missing or cut.
   */
  lemma ReplacedExactly(m: Model, document: DocumentInput, config: Config, s: seq<SectionInput>)
    requires config.limits.Ok() && AcceptsDocument(document) && InOrdinalOrder(s, document.sections)
    ensures var after := Apply(m, ReplaceDocument(document), config);
            && document.taskId in after.documents && after.documents[document.taskId].revision == document.revision
            && IsIndexed(after.documents[document.taskId], s, RoomOf(m, document.taskId, config.limits), config.limits)
            && after == m.(documents := m.documents[document.taskId := after.documents[document.taskId]])
  {
    hide AcceptsDocument, IndexDocument, IndexSections, OfferedSections, AreListed, RoomEnds, AnyCut, Chars, InOrdinalOrder;
    var limits, room := config.limits, RoomOf(m, document.taskId, config.limits);
    OfferedAre(document, s, limits);
    var offered := OfferedSections(document, limits);
    IndexDocumentIs(document, room, limits);
    IndexingLists(offered, 0, room, limits);
    var indexed := IndexSections(offered, 0, room, limits).sections;
    SameLength(document, s);
    if |s| > limits.maxSectionsPerDocument {
      FirstOfAll(indexed, s, limits.maxSectionsPerDocument, room, limits);
    }
    NoMore(indexed, offered, room, limits);
  }

  lemma SameLength(document: DocumentInput, s: seq<SectionInput>)
    requires InOrdinalOrder(s, document.sections)
    ensures |s| == |document.sections|
  {
  }

  lemma NoMore(ys: seq<Section>, s: seq<SectionInput>, room: int, limits: Limits)
    requires AreListed(ys, s, room, limits)
    ensures |ys| <= |s|
  {
  }

  /** A document that fits is listed whole, every given section once. */
  lemma FittingIsWhole(m: Model, document: DocumentInput, config: Config, s: seq<SectionInput>)
    requires config.limits.Ok() && AcceptsDocument(document) && InOrdinalOrder(s, document.sections)
    requires |s| <= config.limits.maxSectionsPerDocument
    requires Total(s, config.limits) <= RoomOf(m, document.taskId, config.limits)
    ensures var d := Apply(m, ReplaceDocument(document), config).documents[document.taskId];
            && |d.sections| == |s| && !d.truncated
            && forall i :: 0 <= i < |s| ==> !d.sections[i].cut && IsListed(s[i], d.sections[i], |s[i].text|, config.limits)
  {
    hide AcceptsDocument, Apply, RoomOf, IsListed, HeadingSize, InOrdinalOrder;
    ReplacedExactly(m, document, config, s);
    var d, room := Apply(m, ReplaceDocument(document), config).documents[document.taskId], RoomOf(m, document.taskId, config.limits);
    forall i | 0 <= i < |s|
      ensures RoomFor(s, i, room, config.limits) >= |s[i].text|
    {
      TotalOfFirst(s, i, config.limits);
    }
    forall i | 0 <= i < |d.sections|
      ensures !d.sections[i].cut
    {
      NotCut(s[i], d.sections[i], Kept(s, i, room, config.limits), config.limits);
    }
  }

  lemma NotCut(x: SectionInput, y: Section, kept: int, limits: Limits)
    requires IsListed(x, y, kept, limits)
    ensures y.cut <==> kept < |x.text|
  {
  }

  lemma {:induction false} TotalOfFirst(s: seq<SectionInput>, i: nat, limits: Limits)
    requires i < |s|
    ensures Total(s[..i], limits) + HeadingSize(s[i], limits) + |s[i].text| <= Total(s, limits)
    decreases i
  {
    if i > 0 {
      assert s[..i][1..] == s[1..][..i - 1];
      TotalOfFirst(s[1..], i - 1, limits);
    }
  }
}
