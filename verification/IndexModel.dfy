/**
 * What a search index holds, apart from the bookkeeping of SearchIndex: the records, and the effect of
 * each mutation on them (packages/search/src/search-index.ts).
 */
module IndexModel {
  import opened Wrappers
  import opened Numbers
  import opened Utf16
  import opened Chunking
  import opened SearchRecords
  import opened MapSums

  function HeadingChars(heading: Option<Text>): nat {
    if heading.Some? then |heading.value| else 0
  }

  function LastEnd(chunks: seq<TextChunk>): nat {
    if chunks == [] then 0 else chunks[|chunks| - 1].End()
  }

  datatype Section = Section(
    sectionId: string, ordinal: nat, heading: Option<Text>, cut: bool, chunks: seq<TextChunk>)
  {
    /** Heading plus section text; the text ends where its last chunk ends. */
    function Chars(): nat {
      LastEnd(chunks) + HeadingChars(heading)
    }

    predicate Ok() {
      IsSectionId(sectionId) && IsNonNegativeSafe(ordinal) && chunks != []
    }
  }

  function SectionsChars(sections: seq<Section>): nat {
    if sections == [] then 0
    else SectionsChars(sections[..|sections| - 1]) + sections[|sections| - 1].Chars()
  }

  predicate SectionsOk(sections: seq<Section>) {
    && (forall i :: 0 <= i < |sections| ==> sections[i].Ok())
    && (forall i, j :: 0 <= i < j < |sections| ==> sections[i].ordinal < sections[j].ordinal)
  }

  lemma SectionsOkFrom(sections: seq<Section>, i: nat)
    requires SectionsOk(sections) && i <= |sections|
    ensures SectionsOk(sections[i..]) && SectionsOk(sections[..i])
  {
  }

  datatype Document = Document(revision: string, truncated: bool, sections: seq<Section>) {
    predicate Ok() {
      IsRevision(revision) && SectionsOk(sections)
    }
  }

  predicate TasksOk(tasks: map<string, TaskRecord>) {
    forall t :: t in tasks ==> tasks[t].id == t && AcceptsTask(tasks[t])
  }

  predicate DocumentsOk(documents: map<string, Document>) {
    forall t :: t in documents ==> IsUuidV7(t) && documents[t].Ok()
  }

  predicate MessagesOk(messages: map<string, MessageRecord>) {
    forall m :: m in messages ==> messages[m].id == m && AcceptsMessage(messages[m])
  }

  datatype Model = Model(
    tasks: map<string, TaskRecord>,
    documents: map<string, Document>,
    messages: map<string, MessageRecord>,
    messagesSkipped: bool)
  {
    predicate Ok() {
      TasksOk(tasks) && DocumentsOk(documents) && MessagesOk(messages)
    }
  }

  const EMPTY := Model(map[], map[], map[], false)

  datatype Config = Config(limits: Limits, includeChat: bool)

  /* ----- Totals ----- */

  ghost function TitleChars(tasks: map<string, TaskRecord>): nat {
    Sum(map t | t in tasks :: |tasks[t].title|)
  }

  ghost function DocumentChars(documents: map<string, Document>): nat {
    Sum(map t | t in documents :: SectionsChars(documents[t].sections))
  }

  ghost function MessageChars(messages: map<string, MessageRecord>): nat {
    Sum(map m | m in messages :: |messages[m].text|)
  }

  /** Indexed characters: titles, documents and messages. */
  ghost function Chars(m: Model): nat {
    TitleChars(m.tasks) + DocumentChars(m.documents) + MessageChars(m.messages)
  }

  lemma TitleCharsRemove(tasks: map<string, TaskRecord>, t: string)
    requires t in tasks
    ensures TitleChars(tasks) == |tasks[t].title| + TitleChars(tasks - {t})
  {
    var lengths: map<string, nat> := map k | k in tasks :: |tasks[k].title|;
    SumRemove(lengths, t);
    assert lengths - {t} == map k | k in tasks - {t} :: |(tasks - {t})[k].title|;
  }

  lemma DocumentCharsRemove(documents: map<string, Document>, t: string)
    requires t in documents
    ensures DocumentChars(documents) == SectionsChars(documents[t].sections) + DocumentChars(documents - {t})
  {
    var lengths: map<string, nat> := map k | k in documents :: SectionsChars(documents[k].sections);
    SumRemove(lengths, t);
    assert lengths - {t} == map k | k in documents - {t} :: SectionsChars((documents - {t})[k].sections);
  }

  lemma MessageCharsRemove(messages: map<string, MessageRecord>, m: string)
    requires m in messages
    ensures MessageChars(messages) == |messages[m].text| + MessageChars(messages - {m})
  {
    var lengths: map<string, nat> := map k | k in messages :: |messages[k].text|;
    SumRemove(lengths, m);
    assert lengths - {m} == map k | k in messages - {m} :: |(messages - {m})[k].text|;
  }

  lemma TitleReplaced(tasks: map<string, TaskRecord>, record: TaskRecord)
    ensures TitleChars(tasks[record.id := record])
         == TitleChars(tasks) - (if record.id in tasks then |tasks[record.id].title| else 0) + |record.title|
  {
    var others := tasks - {record.id};
    TitleCharsRemove(tasks[record.id := record], record.id);
    assert tasks[record.id := record] - {record.id} == others;
    if record.id in tasks {
      TitleCharsRemove(tasks, record.id);
    } else {
      assert others == tasks;
    }
  }

  lemma MessageAdded(messages: map<string, MessageRecord>, record: MessageRecord)
    requires record.id !in messages
    ensures MessageChars(messages[record.id := record]) == MessageChars(messages) + |record.text|
  {
    MessageCharsRemove(messages[record.id := record], record.id);
    assert messages[record.id := record] - {record.id} == messages;
  }

  lemma DocumentAdded(documents: map<string, Document>, t: string, document: Document)
    requires t !in documents
    ensures DocumentChars(documents[t := document]) == DocumentChars(documents) + SectionsChars(document.sections)
  {
    DocumentCharsRemove(documents[t := document], t);
    assert documents[t := document] - {t} == documents;
  }

  ghost predicate Within<T>(small: map<string, T>, big: map<string, T>) {
    small.Keys <= big.Keys && forall k :: k in small ==> small[k] == big[k]
  }

  lemma CharsWithin(small: Model, big: Model)
    requires Within(small.tasks, big.tasks)
    requires Within(small.documents, big.documents)
    requires Within(small.messages, big.messages)
    ensures TitleChars(small.tasks) <= TitleChars(big.tasks)
    ensures DocumentChars(small.documents) <= DocumentChars(big.documents)
    ensures MessageChars(small.messages) <= MessageChars(big.messages)
    ensures Chars(small) <= Chars(big)
  {
    SumSubmap(map t | t in small.tasks :: |small.tasks[t].title|, map t | t in big.tasks :: |big.tasks[t].title|);
    SumSubmap(map t | t in small.documents :: SectionsChars(small.documents[t].sections),
              map t | t in big.documents :: SectionsChars(big.documents[t].sections));
    SumSubmap(map m | m in small.messages :: |small.messages[m].text|, map m | m in big.messages :: |big.messages[m].text|);
  }

  /* ----- Mutations ----- */

  datatype Mutation =
    | UpsertTask(task: TaskRecord)
    | RemoveTask(taskId: string)
    | ReplaceDocument(document: DocumentInput)
    | RemoveDocument(taskId: string)
    | UpsertMessage(message: MessageRecord)
    | RemoveMessage(messageId: string)

  /** The record checks at the head of each mutation. */
  predicate Accepts(mutation: Mutation) {
    match mutation
    case UpsertTask(task) => AcceptsTask(task)
    case ReplaceDocument(document) => AcceptsDocument(document)
    case UpsertMessage(message) => AcceptsMessage(message)
    case _ => true
  }

  predicate InputsOk(sections: seq<SectionInput>) {
    forall i :: 0 <= i < |sections| ==> AcceptsSection(sections[i])
  }

  predicate DistinctOrdinals(sections: seq<SectionInput>) {
    forall i, j :: 0 <= i < j < |sections| ==> sections[i].ordinal != sections[j].ordinal
  }

  predicate Ascending(sections: seq<SectionInput>) {
    forall i, j :: 0 <= i < j < |sections| ==> sections[i].ordinal < sections[j].ordinal
  }

  function InsertSection(section: SectionInput, sorted: seq<SectionInput>): (r: seq<SectionInput>)
    requires Ascending(sorted) && forall x :: x in sorted ==> x.ordinal != section.ordinal
    ensures |r| == |sorted| + 1 && Ascending(r)
    ensures forall x :: x in r <==> x == section || x in sorted
  {
    if sorted == [] || section.ordinal < sorted[0].ordinal then
      [section] + sorted
    else
      assert sorted == [sorted[0]] + sorted[1..];
      var rest := InsertSection(section, sorted[1..]);
      assert forall x :: x in rest ==> sorted[0].ordinal < x.ordinal;
      [sorted[0]] + rest
  }

  /** Rising by ordinal; with distinct ordinals there is one such order. */
  function SortSections(sections: seq<SectionInput>): (r: seq<SectionInput>)
    requires DistinctOrdinals(sections)
    ensures |r| == |sections| && Ascending(r)
    ensures forall x :: x in r <==> x in sections
  {
    if sections == [] then []
    else
      var n := |sections| - 1;
      assert sections == sections[..n] + [sections[n]];
      InsertSection(sections[n], SortSections(sections[..n]))
  }

  function ClipHeading(heading: Option<Text>, max: nat): Option<Text> {
    if heading.Some? then Some(Clip(heading.value, max)) else None
  }

  function IndexSection(section: SectionInput, budget: nat, limits: Limits): Section
    requires limits.Ok() && AcceptsSection(section)
  {
    Section(section.sectionId, section.ordinal, ClipHeading(section.heading, limits.maxTitleChars),
            |section.text| > budget,
            ChunksOf(Clip(section.text, budget), limits.chunkChars, limits.chunkOverlapChars))
  }

  datatype Indexed = Indexed(sections: seq<Section>, truncated: bool)

  /** Sections in order while at most `cap` characters are used, of which `used` already are. */
  function IndexSections(sections: seq<SectionInput>, used: nat, cap: int, limits: Limits): Indexed
    requires limits.Ok() && InputsOk(sections)
  {
    if sections == [] then
      Indexed([], false)
    else
      var budget := Budget(sections, used, cap, limits);
      if budget < 0 then
        Indexed([], true)
      else
        var first := IndexSection(sections[0], budget, limits);
        if first.cut then
          Indexed([first], true)
        else
          var rest := IndexSections(sections[1..], used + first.Chars(), cap, limits);
          Indexed([first] + rest.sections, rest.truncated)
  }

  /** What is left of the cap for the text of the first section. */
  function Budget(sections: seq<SectionInput>, used: nat, cap: int, limits: Limits): int
    requires sections != []
  {
    cap - used - HeadingChars(ClipHeading(sections[0].heading, limits.maxTitleChars))
  }

  lemma IndexSectionsStop(sections: seq<SectionInput>, used: nat, cap: int, limits: Limits)
    requires limits.Ok() && InputsOk(sections) && sections != []
    requires Budget(sections, used, cap, limits) < 0
    ensures IndexSections(sections, used, cap, limits) == Indexed([], true)
  {
  }

  lemma IndexSectionsStep(sections: seq<SectionInput>, used: nat, cap: int, limits: Limits, first: Section)
    requires limits.Ok() && InputsOk(sections) && sections != []
    requires Budget(sections, used, cap, limits) >= 0
    requires first == IndexSection(sections[0], Budget(sections, used, cap, limits), limits)
    ensures first.cut ==> IndexSections(sections, used, cap, limits) == Indexed([first], true)
    ensures !first.cut ==>
              var rest := IndexSections(sections[1..], used + first.Chars(), cap, limits);
              IndexSections(sections, used, cap, limits) == Indexed([first] + rest.sections, rest.truncated)
  {
  }

  function Take<T>(s: seq<T>, n: nat): seq<T> {
    if |s| > n then s[..n] else s
  }

  /** The sections a document offers for indexing: in order, at most `maxSectionsPerDocument`. */
  function OfferedSections(document: DocumentInput, limits: Limits): (r: seq<SectionInput>)
    requires AcceptsDocument(document)
    ensures |r| <= limits.maxSectionsPerDocument && InputsOk(r) && Ascending(r)
  {
    var ordered := SortSections(document.sections);
    assert forall i :: 0 <= i < |ordered| ==> ordered[i] in document.sections;
    Take(ordered, limits.maxSectionsPerDocument)
  }

  /** How much of a document the limits leave room for. */
  function IndexDocument(document: DocumentInput, cap: int, limits: Limits): Document
    requires limits.Ok() && AcceptsDocument(document)
  {
    var indexed := IndexSections(OfferedSections(document, limits), 0, cap, limits);
    Document(document.revision, |document.sections| > limits.maxSectionsPerDocument || indexed.truncated, indexed.sections)
  }

  ghost function DocumentCap(m: Model, taskId: string, limits: Limits): int {
    Min(limits.maxDocumentChars, limits.maxCorpusChars - Chars(m.(documents := m.documents - {taskId})))
  }

  lemma IndexDocumentIs(document: DocumentInput, cap: int, limits: Limits)
    requires limits.Ok() && AcceptsDocument(document)
    ensures var indexed, d := IndexSections(OfferedSections(document, limits), 0, cap, limits), IndexDocument(document, cap, limits);
            && d.revision == document.revision && d.sections == indexed.sections
            && d.truncated == (|document.sections| > limits.maxSectionsPerDocument || indexed.truncated)
  {
  }

  lemma DocumentRoom(m: Model, removed: Model, taskId: string, limits: Limits)
    requires removed == m.(documents := m.documents - {taskId})
    ensures DocumentCap(m, taskId, limits) == Min(limits.maxDocumentChars, limits.maxCorpusChars - Chars(removed))
  {
  }

  ghost function MessageRoom(m: Model, messageId: string, limits: Limits): int {
    limits.maxCorpusChars - Chars(m.(messages := m.messages - {messageId}))
  }

  function MessagesOutside(messages: map<string, MessageRecord>, taskId: string): map<string, MessageRecord> {
    map m | m in messages && messages[m].taskId != taskId :: messages[m]
  }

  /** The effect of an accepted mutation on the records of an index. */
  ghost function Apply(m: Model, mutation: Mutation, config: Config): Model
    requires config.limits.Ok() && Accepts(mutation)
  {
    match mutation
    case UpsertTask(task) =>
      m.(tasks := m.tasks[task.id := task.(title := Clip(task.title, config.limits.maxTitleChars))])
    case RemoveTask(taskId) =>
      m.(tasks := m.tasks - {taskId}, documents := m.documents - {taskId},
         messages := MessagesOutside(m.messages, taskId))
    case ReplaceDocument(document) =>
      m.(documents := m.documents[document.taskId :=
        IndexDocument(document, DocumentCap(m, document.taskId, config.limits), config.limits)])
    case RemoveDocument(taskId) =>
      m.(documents := m.documents - {taskId})
    case UpsertMessage(message) =>
      var removed := m.(messages := m.messages - {message.id});
      var room := MessageRoom(m, message.id, config.limits);
      if !config.includeChat then removed
      else if room <= 0 then removed.(messagesSkipped := true)
      else removed.(messages := removed.messages[message.id :=
        message.(text := Clip(message.text, Min(config.limits.maxMessageChars, room)))])
    case RemoveMessage(messageId) =>
      m.(messages := m.messages - {messageId})
  }

  /** A mutation that is refused throws before it changes anything. */
  ghost function Attempt(m: Model, mutation: Mutation, config: Config): Model
    requires config.limits.Ok()
  {
    if Accepts(mutation) then Apply(m, mutation, config) else m
  }

  ghost function Run(m: Model, mutations: seq<Mutation>, config: Config): Model
    requires config.limits.Ok()
  {
    if mutations == [] then m
    else Attempt(Run(m, mutations[..|mutations| - 1], config), mutations[|mutations| - 1], config)
  }

  /* ----- What every mutation keeps ----- */

  lemma IndexSectionChars(section: SectionInput, budget: nat, limits: Limits)
    requires limits.Ok() && AcceptsSection(section)
    ensures var s := IndexSection(section, budget, limits);
            && s.chunks != []
            && s.Chars() == |Clip(section.text, budget)| + HeadingChars(s.heading)
  {
    ChunksCover(Clip(section.text, budget), limits.chunkChars, limits.chunkOverlapChars);
  }

  lemma {:induction false} SectionsCharsPrepend(first: Section, rest: seq<Section>)
    ensures SectionsChars([first] + rest) == first.Chars() + SectionsChars(rest)
  {
    if rest == [] {
      assert [first] + rest == [first];
      assert [first][..0] == [];
    } else {
      var all := [first] + rest;
      assert all[..|all| - 1] == [first] + rest[..|rest| - 1];
      SectionsCharsPrepend(first, rest[..|rest| - 1]);
    }
  }

  /** The indexed sections are the offered ones, in order, up to some point. */
  ghost predicate Follow(indexed: seq<Section>, sections: seq<SectionInput>) {
    |indexed| <= |sections| && forall i :: 0 <= i < |indexed| ==> indexed[i].ordinal == sections[i].ordinal
  }

  /** Indexed sections are sound, in order and within the cap. */
  ghost predicate IndexedOk(indexed: seq<Section>, sections: seq<SectionInput>, used: nat, cap: int) {
    && SectionsOk(indexed)
    && Follow(indexed, sections)
    && (indexed != [] ==> used + SectionsChars(indexed) <= cap)
  }

  lemma IndexedPrepend(first: Section, rest: seq<Section>, sections: seq<SectionInput>, used: nat, cap: int)
    requires sections != [] && Ascending(sections)
    requires first.Ok() && first.ordinal == sections[0].ordinal && used + first.Chars() <= cap
    requires IndexedOk(rest, sections[1..], used + first.Chars(), cap)
    ensures IndexedOk([first] + rest, sections, used, cap)
  {
    var all := [first] + rest;
    SectionsCharsPrepend(first, rest);
    assert rest == [] ==> SectionsChars(rest) == 0;
    forall i | 0 <= i < |all|
      ensures all[i].ordinal == sections[i].ordinal
    {
      assert i > 0 ==> all[i] == rest[i - 1] && sections[i] == sections[1..][i - 1];
    }
  }

  lemma FirstSectionOk(sections: seq<SectionInput>, used: nat, cap: int, limits: Limits)
    requires limits.Ok() && InputsOk(sections) && Ascending(sections) && sections != []
    requires Budget(sections, used, cap, limits) >= 0
    ensures var first := IndexSection(sections[0], Budget(sections, used, cap, limits), limits);
            && first.Ok() && first.ordinal == sections[0].ordinal && used + first.Chars() <= cap
            && InputsOk(sections[1..]) && Ascending(sections[1..])
            && IndexedOk([], sections[1..], used + first.Chars(), cap)
  {
    IndexSectionChars(sections[0], Budget(sections, used, cap, limits), limits);
  }

  lemma FirstAccepted(sections: seq<SectionInput>)
    requires InputsOk(sections) && sections != []
    ensures AcceptsSection(sections[0]) && InputsOk(sections[1..])
  {
  }

  lemma NothingIndexed(sections: seq<SectionInput>, used: nat, cap: int, limits: Limits)
    requires limits.Ok()
    ensures IndexedOk([], sections, used, cap) && IndexSections([], used, cap, limits).sections == []
  {
  }

  lemma {:induction false} IndexSectionsOk(sections: seq<SectionInput>, used: nat, cap: int, limits: Limits)
    requires limits.Ok() && InputsOk(sections) && Ascending(sections)
    ensures IndexedOk(IndexSections(sections, used, cap, limits).sections, sections, used, cap)
  {
    hide *;
    NothingIndexed(sections, used, cap, limits);
    if sections != [] {
      FirstAccepted(sections);
      var budget := Budget(sections, used, cap, limits);
      if budget < 0 {
        IndexSectionsStop(sections, used, cap, limits);
      } else {
        var first := IndexSection(sections[0], budget, limits);
        FirstSectionOk(sections, used, cap, limits);
        IndexSectionsStep(sections, used, cap, limits, first);
        if first.cut {
          IndexedPrepend(first, [], sections, used, cap);
          assert [first] + [] == [first];
        } else {
          IndexSectionsOk(sections[1..], used + first.Chars(), cap, limits);
          var rest := IndexSections(sections[1..], used + first.Chars(), cap, limits).sections;
          IndexedPrepend(first, rest, sections, used, cap);
        }
      }
    }
  }

  lemma IndexedSectionsOk(sections: seq<SectionInput>, used: nat, cap: int, limits: Limits)
    requires limits.Ok() && InputsOk(sections) && Ascending(sections)
    ensures SectionsOk(IndexSections(sections, used, cap, limits).sections)
  {
    hide IndexSections, SectionsOk, Follow;
    IndexSectionsOk(sections, used, cap, limits);
  }

  lemma IndexSectionIs(section: SectionInput, budget: nat, limits: Limits, s: Section)
    requires limits.Ok() && AcceptsSection(section)
    requires s.sectionId == section.sectionId && s.ordinal == section.ordinal && s.cut == (|section.text| > budget)
    requires s.heading == ClipHeading(section.heading, limits.maxTitleChars)
    requires s.chunks == ChunksOf(Clip(section.text, budget), limits.chunkChars, limits.chunkOverlapChars)
    ensures s == IndexSection(section, budget, limits)
    ensures s.Chars() == |Clip(section.text, budget)| + HeadingChars(s.heading)
  {
    IndexSectionChars(section, budget, limits);
  }

  lemma AcceptedDocumentId(document: DocumentInput)
    requires AcceptsDocument(document)
    ensures IsUuidV7(document.taskId)
  {
  }

  lemma IndexDocumentOk(document: DocumentInput, cap: int, limits: Limits)
    requires limits.Ok() && AcceptsDocument(document)
    ensures IndexDocument(document, cap, limits).Ok()
    ensures SectionsChars(IndexDocument(document, cap, limits).sections) <= if cap < 0 then 0 else cap
  {
    IndexSectionsOk(OfferedSections(document, limits), 0, cap, limits);
  }

  lemma TasksMayAdd(tasks: map<string, TaskRecord>, task: TaskRecord)
    requires TasksOk(tasks) && AcceptsTask(task)
    ensures TasksOk(tasks[task.id := task])
  {
    hide AcceptsTask;
  }

  lemma DocumentsMayAdd(documents: map<string, Document>, t: string, document: Document)
    requires DocumentsOk(documents) && IsUuidV7(t) && document.Ok()
    ensures DocumentsOk(documents[t := document])
  {
    hide IsUuidV7, IsRevision, SectionsOk;
  }

  lemma MessagesMayAdd(messages: map<string, MessageRecord>, message: MessageRecord)
    requires MessagesOk(messages) && AcceptsMessage(message)
    ensures MessagesOk(messages[message.id := message])
  {
    hide AcceptsMessage;
  }

  lemma MessagesMayDrop(messages: map<string, MessageRecord>, m: string)
    requires MessagesOk(messages)
    ensures MessagesOk(messages - {m})
  {
    hide AcceptsMessage;
  }

  lemma RestrictingKeepsOk(small: Model, big: Model)
    requires big.Ok()
    requires Within(small.tasks, big.tasks) && Within(small.documents, big.documents)
    requires Within(small.messages, big.messages)
    ensures small.Ok()
  {
    hide IsUuidV7, IsRevision, SectionsOk, AcceptsTask, AcceptsMessage;
  }

  /** Every mutation keeps the records sound. */
  lemma ApplyKeepsOk(m: Model, mutation: Mutation, config: Config)
    requires config.limits.Ok() && Accepts(mutation) && m.Ok()
    ensures Apply(m, mutation, config).Ok()
  {
    match mutation {
      case UpsertTask(task) =>
        var stored := task.(title := Clip(task.title, config.limits.maxTitleChars));
        TasksMayAdd(m.tasks, stored);
      case ReplaceDocument(document) =>
        var cap := DocumentCap(m, document.taskId, config.limits);
        IndexDocumentOk(document, cap, config.limits);
        DocumentsMayAdd(m.documents, document.taskId, IndexDocument(document, cap, config.limits));
      case UpsertMessage(message) =>
        var removed := m.(messages := m.messages - {message.id});
        RestrictingKeepsOk(removed, m);
        var room := MessageRoom(m, message.id, config.limits);
        if room > 0 {
          MessagesMayAdd(removed.messages, message.(text := Clip(message.text, Min(config.limits.maxMessageChars, room))));
        }
      case _ =>
        RestrictingKeepsOk(Apply(m, mutation, config), m);
    }
  }

  lemma ReplaceChars(documents: map<string, Document>, t: string, document: Document)
    ensures DocumentChars(documents[t := document])
            == DocumentChars(documents - {t}) + SectionsChars(document.sections)
  {
    DocumentCharsRemove(documents[t := document], t);
    assert documents[t := document] - {t} == documents - {t};
  }

  lemma ReplaceKeepsCorpusLimit(m: Model, document: DocumentInput, config: Config)
    requires config.limits.Ok() && AcceptsDocument(document)
    requires DocumentChars(m.documents) + MessageChars(m.messages) <= config.limits.maxCorpusChars
    ensures DocumentChars(Apply(m, ReplaceDocument(document), config).documents) + MessageChars(m.messages)
            <= config.limits.maxCorpusChars
  {
    var t, limits := document.taskId, config.limits;
    var removed := m.(documents := m.documents - {t});
    CharsWithin(removed, m);
    var cap := DocumentCap(m, t, limits);
    IndexDocumentOk(document, cap, limits);
    ReplaceChars(m.documents, t, IndexDocument(document, cap, limits));
  }

  lemma MessageKeepsCorpusLimit(m: Model, message: MessageRecord, config: Config)
    requires config.limits.Ok() && AcceptsMessage(message)
    requires DocumentChars(m.documents) + MessageChars(m.messages) <= config.limits.maxCorpusChars
    ensures DocumentChars(m.documents) + MessageChars(Apply(m, UpsertMessage(message), config).messages)
            <= config.limits.maxCorpusChars
  {
    hide IndexDocument, DocumentChars, MessageChars, DocumentCap, AcceptsMessage;
    var removed := m.(messages := m.messages - {message.id});
    CharsWithin(removed, m);
    var r := Apply(m, UpsertMessage(message), config);
    if message.id in r.messages {
      MessageCharsRemove(r.messages, message.id);
      assert r.messages - {message.id} == removed.messages;
    }
  }

  /** No mutation lets documents and messages together outgrow the corpus limit. */
  lemma ApplyKeepsCorpusLimit(m: Model, mutation: Mutation, config: Config)
    requires config.limits.Ok() && Accepts(mutation) && m.Ok()
    requires DocumentChars(m.documents) + MessageChars(m.messages) <= config.limits.maxCorpusChars
    ensures var r := Apply(m, mutation, config);
            DocumentChars(r.documents) + MessageChars(r.messages) <= config.limits.maxCorpusChars
  {
    var limits := config.limits;
    match mutation {
      case UpsertTask(_) =>
      case RemoveTask(taskId) =>
        CharsWithin(Apply(m, mutation, config), m);
      case RemoveDocument(taskId) =>
        CharsWithin(Apply(m, mutation, config), m);
      case RemoveMessage(_) =>
        CharsWithin(Apply(m, mutation, config), m);
      case ReplaceDocument(document) =>
        ReplaceKeepsCorpusLimit(m, document, config);
      case UpsertMessage(message) =>
        MessageKeepsCorpusLimit(m, message, config);
    }
  }

  lemma {:induction false} RunKeepsOk(m: Model, mutations: seq<Mutation>, config: Config)
    requires config.limits.Ok() && m.Ok()
    ensures Run(m, mutations, config).Ok()
  {
    if mutations != [] {
      var n := |mutations| - 1;
      RunKeepsOk(m, mutations[..n], config);
      if Accepts(mutations[n]) {
        ApplyKeepsOk(Run(m, mutations[..n], config), mutations[n], config);
      }
    }
  }

  /** In every run, documents and messages stay within maxCorpusChars; only titles can exceed it. */
  lemma {:induction false} RunKeepsCorpusLimit(m: Model, mutations: seq<Mutation>, config: Config)
    requires config.limits.Ok() && m.Ok()
    requires DocumentChars(m.documents) + MessageChars(m.messages) <= config.limits.maxCorpusChars
    ensures var r := Run(m, mutations, config);
            DocumentChars(r.documents) + MessageChars(r.messages) <= config.limits.maxCorpusChars
  {
    if mutations != [] {
      var n := |mutations| - 1;
      RunKeepsCorpusLimit(m, mutations[..n], config);
      RunKeepsOk(m, mutations[..n], config);
      if Accepts(mutations[n]) {
        ApplyKeepsCorpusLimit(Run(m, mutations[..n], config), mutations[n], config);
      }
    }
  }
}
