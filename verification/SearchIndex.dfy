/** packages/search/src/search-index.ts: the mutable index and its redundant tables. */
module SearchIndexes {
  import Numbers
  import opened Wrappers
  import opened Utf16
  import opened Chunking
  import opened SearchRecords
  import opened IndexModel
  import opened IndexTables
  import opened ArtifactModel
  import opened ArtifactSoundness
  import opened ArtifactLoading
  import opened DocIdNames = DocIds

  /** The MiniSearch calls the index makes. Adding a known id or discarding an unknown one throws there. */
  class MiniSearch {
    var docs: map<DocId, Fields>
    var dirtCount: nat

    constructor ()
      ensures docs == map[] && dirtCount == 0
    {
      docs, dirtCount := map[], 0;
    }

    constructor Load(stored: map<DocId, Fields>)
      ensures docs == stored && dirtCount == 0
    {
      docs, dirtCount := stored, 0;
    }

    method Add(id: DocId, fields: Fields)
      requires id !in docs
      modifies this
      ensures docs == old(docs)[id := fields] && dirtCount == old(dirtCount)
    {
      docs := docs[id := fields];
    }

    method Discard(id: DocId)
      requires id in docs
      modifies this
      ensures docs == old(docs) - {id} && dirtCount == old(dirtCount) + 1
    {
      docs, dirtCount := docs - {id}, dirtCount + 1;
    }

    /** Discards the document when it is known, and adds the new one. */
    method Replace(id: DocId, fields: Fields, known: bool)
      requires known <==> id in docs
      modifies this
      ensures docs == (old(docs) - {id})[id := fields]
    {
      if known {
        Discard(id);
      } else {
        RemoveAbsent(docs, id);
      }
      Add(id, fields);
    }

    method Vacuum()
      modifies this
      ensures docs == old(docs) && dirtCount == 0
    {
      dirtCount := 0;
    }
  }

  lemma RemoveAbsent<K, V>(m: map<K, V>, k: K)
    requires k !in m
    ensures m - {k} == m
  {
  }

  lemma PutAfterRemove<K, V>(m: map<K, V>, k: K, v: V)
    ensures (m - {k})[k := v] == m[k := v]
  {
  }

  lemma TakeNext<T>(s: seq<T>, i: nat)
    requires i < |s|
    ensures s[..i] + [s[i]] == s[..i + 1]
  {
  }

  class SearchIndex {
    const ownerId: string
    const includeChat: bool
    const limits: Limits
    const miniSearch: MiniSearch
    var taskRecords: map<string, TaskRecord>
    var documentEntries: map<string, DocumentEntry>
    var sectionEntries: map<DocId, SectionEntry>
    var messageRecords: map<string, MessageRecord>
    var messagesByTask: map<string, set<string>>
    var chars: int
    var messagesSkipped: bool

    /** The records alone; every other field follows from them. */
    ghost var model: Model

    ghost function Cfg(): Config {
      Config(limits, includeChat)
    }

    ghost function Now(): Tables
      reads this, miniSearch
    {
      Tables(taskRecords, documentEntries, sectionEntries, messageRecords, messagesByTask, chars, messagesSkipped,
             miniSearch.docs)
    }

    ghost predicate Valid()
      reads this, miniSearch
    {
      limits.Ok() && Agree(Now(), model)
    }

    constructor (ownerId: string, includeChat: bool, limits: Limits)
      requires limits.Ok()
      ensures Valid() && fresh(miniSearch)
      ensures model == EMPTY && miniSearch.dirtCount == 0
      ensures this.ownerId == ownerId && this.includeChat == includeChat && this.limits == limits
    {
      this.ownerId, this.includeChat, this.limits := ownerId, includeChat, limits;
      miniSearch := new MiniSearch();
      taskRecords, documentEntries, sectionEntries := map[], map[], map[];
      messageRecords, messagesByTask := map[], map[];
      chars, messagesSkipped := 0, false;
      model := EMPTY;
      EmptyAgrees();
    }

    /** Returns false where the source throws: the record was refused and nothing changed. */
    method UpsertTask(task: TaskRecord) returns (ok: bool)
      requires Valid()
      modifies this, miniSearch
      ensures Valid()
      ensures ok <==> AcceptsTask(task)
      ensures model == if ok then Apply(old(model), IndexModel.UpsertTask(task), Cfg()) else old(model)
    {
      hide Agree;
      if !AcceptsTask(task) {
        return false;
      }
      PutTask(task.(title := Clip(task.title, limits.maxTitleChars)));
      return true;
    }

    /** Stores a task record, replacing its MiniSearch title and its share of `chars`. */
    method PutTask(record: TaskRecord)
      requires Valid() && AcceptsTask(record)
      modifies this, miniSearch
      ensures Valid()
      ensures model == old(model).(tasks := old(model).tasks[record.id := record])
    {
      hide Agree, AcceptsTask, Apply, IndexDocument, IsUuidV7, IsNonNegativeSafe, IdText;
      ghost var before := Now();
      RecordsAgree(before, model);
      TaskPut(before, model, record);
      var id := TitleDoc(record.id);
      var known := record.id in taskRecords;
      miniSearch.Replace(id, TitleFields(record.title), known);
      chars := chars - (if known then |taskRecords[record.id].title| else 0) + |record.title|;
      taskRecords := taskRecords[record.id := record];
      assert Now() == WithTask(before, record);
      Follow(model.(tasks := model.tasks[record.id := record]));
    }

    /** The records that the tables have come to agree with. */
    ghost method Follow(next: Model)
      requires limits.Ok() && Agree(Now(), next)
      modifies this`model
      ensures Valid() && model == next
    {
      hide Agree;
      model := next;
    }

    method RemoveMessage(messageId: string)
      requires Valid()
      modifies this, miniSearch
      ensures Valid()
      ensures model == Apply(old(model), IndexModel.RemoveMessage(messageId), Cfg())
    {
      hide Agree, AcceptsMessage, ByTaskAdd, ByTaskDrop;
      RecordsAgree(Now(), model);
      if messageId !in messageRecords {
        assert model.messages - {messageId} == model.messages;
        return;
      }
      var previous := messageRecords[messageId];
      MessageDropped(Now(), model, messageId);
      miniSearch.Discard(MessageDoc(messageId));
      chars := chars - |previous.text|;
      messageRecords := messageRecords - {messageId};
      messagesByTask := ByTaskDrop(messagesByTask, previous);
      model := model.(messages := model.messages - {messageId});
    }

    method UpsertMessage(message: MessageRecord) returns (ok: bool)
      requires Valid()
      modifies this, miniSearch
      ensures Valid()
      ensures ok <==> AcceptsMessage(message)
      ensures model == if ok then Apply(old(model), IndexModel.UpsertMessage(message), Cfg()) else old(model)
    {
      hide Agree, IndexDocument, DocumentCap, MessagesOutside, AcceptsTask, AcceptsDocument, Clip, Chars;
      if !AcceptsMessage(message) {
        return false;
      }
      RemoveMessage(message.id);
      RecordsAgree(Now(), model);
      if !includeChat {
        return true;
      }
      TotalAgrees(Now(), model);
      var room := limits.maxCorpusChars - chars;
      if room <= 0 {
        SkippedSet(Now(), model);
        messagesSkipped := true;
        model := model.(messagesSkipped := true);
        return true;
      }
      var text := Clip(message.text, Numbers.Min(limits.maxMessageChars, room));
      AddMessageRecord(message.(text := text));
      return true;
    }

    /** addMessageRecord, and the MiniSearch entry its callers add beside it. */
    method AddMessageRecord(record: MessageRecord)
      requires Valid() && AcceptsMessage(record) && record.id !in model.messages
      modifies this, miniSearch
      ensures Valid()
      ensures model == old(model).(messages := old(model).messages[record.id := record])
    {
      hide Agree, AcceptsMessage, ByTaskAdd, ByTaskDrop;
      RecordsAgree(Now(), model);
      MessagePut(Now(), model, record);
      messageRecords := messageRecords[record.id := record];
      messagesByTask := ByTaskAdd(messagesByTask, record);
      chars := chars + |record.text|;
      miniSearch.Add(MessageDoc(record.id), ChatFields(record.text));
      model := model.(messages := model.messages[record.id := record]);
    }

    /** Discards the chunks of the first listed section. */
    method DropSection(docIds: seq<DocId>, ghost t: string, ghost revision: string, ghost sections: seq<Section>)
      requires sections != [] && SectionsOk(sections)
      requires docIds == ChunkIds(t, sections[0], |sections[0].chunks|)
      requires EntriesAgree(sectionEntries, miniSearch.docs, WithSections(model, t, revision, sections))
      modifies this`sectionEntries, miniSearch
      ensures EntriesAgree(sectionEntries, miniSearch.docs, WithSections(model, t, revision, sections[1..]))
    {
      hide HalfMatch, SectionsOk, EntriesMatch, DocsMatch;
      ghost var m, s := WithSections(model, t, revision, sections), sections[0];
      HalfStart(sectionEntries, miniSearch.docs, m, t, revision, s, false);
      for j := 0 to |docIds|
        invariant HalfMatch(sectionEntries, miniSearch.docs, m, t, revision, s, j, false)
      {
        EntryInDropFirst(t, revision, sections, s.ordinal, j);
        HalfDrain(sectionEntries, miniSearch.docs, m, t, revision, s, j);
        miniSearch.Discard(docIds[j]);
        sectionEntries := sectionEntries - {docIds[j]};
      }
      HalfDrained(sectionEntries, miniSearch.docs, model, t, revision, sections);
    }

    method RemoveDocument(taskId: string)
      requires Valid()
      modifies this, miniSearch
      ensures Valid()
      ensures model == Apply(old(model), IndexModel.RemoveDocument(taskId), Cfg())
    {
      hide Agree, EntriesAgree, SectionsOk, Chars;
      ghost var before := Now();
      DocumentListed(before, model, taskId);
      if taskId !in documentEntries {
        assert model.documents - {taskId} == model.documents;
        return;
      }
      var entry := documentEntries[taskId];
      ghost var d := model.documents[taskId];
      var i := 0;
      assert d.sections[0..] == d.sections;
      while i < |entry.sections|
        invariant 0 <= i <= |entry.sections|
        invariant EntriesAgree(sectionEntries, miniSearch.docs, WithSections(model, taskId, d.revision, d.sections[i..]))
        invariant Now() == before.(sections := sectionEntries, docs := miniSearch.docs) && model == old(model)
      {
        SectionsOkFrom(d.sections, i);
        assert entry.sections[i] == MetaOf(taskId, d.sections[i..][0]);
        DropSection(entry.sections[i].docIds, taskId, d.revision, d.sections[i..]);
        assert d.sections[i..][1..] == d.sections[i + 1..];
        i := i + 1;
      }
      assert d.sections[i..] == [];
      DocumentDropped(before, model, taskId, sectionEntries, miniSearch.docs);
      chars := chars - entry.chars;
      documentEntries := documentEntries - {taskId};
      model := model.(documents := model.documents - {taskId});
    }

    method RemoveTask(taskId: string)
      requires Valid()
      modifies this, miniSearch
      ensures Valid()
      ensures model == Apply(old(model), IndexModel.RemoveTask(taskId), Cfg())
    {
      hide Agree, MessagesOf;
      RecordsAgree(Now(), model);
      if taskId in taskRecords {
        DropTask(taskId);
      } else {
        assert model.tasks - {taskId} == model.tasks;
      }
      RemoveDocument(taskId);
      OutsideIsRest(model.messages, taskId);
      DropMessagesOf(taskId);
    }

    /** Removes every message of a task. */
    method DropMessagesOf(taskId: string)
      requires Valid()
      modifies this, miniSearch
      ensures Valid()
      ensures model == old(model).(messages := old(model).messages - MessagesOf(old(model).messages, taskId))
    {
      hide Agree, MessagesOf;
      ByTaskAgrees(Now(), model, taskId);
      var ids := if taskId in messagesByTask then messagesByTask[taskId] else {};
      ghost var rest, all := model, ids;
      assert rest.messages - {} == rest.messages;
      while ids != {}
        invariant Valid() && ids <= all
        invariant model == rest.(messages := rest.messages - (all - ids))
      {
        var id :| id in ids;
        RemoveMessage(id);
        assert rest.messages - (all - ids) - {id} == rest.messages - (all - (ids - {id}));
        ids := ids - {id};
      }
    }

    method DropTask(taskId: string)
      requires Valid() && taskId in taskRecords
      modifies this, miniSearch
      ensures Valid()
      ensures model == old(model).(tasks := old(model).tasks - {taskId})
    {
      hide Agree;
      TaskDropped(Now(), model, taskId);
      miniSearch.Discard(TitleDoc(taskId));
      chars := chars - |taskRecords[taskId].title|;
      taskRecords := taskRecords - {taskId};
      model := model.(tasks := model.tasks - {taskId});
    }

    /** Adds an entry and a MiniSearch document for each chunk of a new section. */
    method AddSection(taskId: string, revision: string, s: Section, ghost sections: seq<Section>) returns (docIds: seq<DocId>)
      requires SectionsOk(sections + [s])
      requires EntriesAgree(sectionEntries, miniSearch.docs, WithSections(model, taskId, revision, sections))
      modifies this`sectionEntries, miniSearch
      ensures docIds == ChunkIds(taskId, s, |s.chunks|)
      ensures EntriesAgree(sectionEntries, miniSearch.docs, WithSections(model, taskId, revision, sections + [s]))
    {
      hide HalfMatch, SectionsOk, EntriesMatch, DocsMatch;
      ghost var m := WithSections(model, taskId, revision, sections);
      HalfStart(sectionEntries, miniSearch.docs, m, taskId, revision, s, true);
      docIds := [];
      for j := 0 to |s.chunks|
        invariant HalfMatch(sectionEntries, miniSearch.docs, m, taskId, revision, s, j, true)
        invariant docIds == ChunkIds(taskId, s, j)
      {
        EntryInNew(taskId, revision, sections, s, j);
        HalfFill(sectionEntries, miniSearch.docs, m, taskId, revision, s, j);
        var chunk := s.chunks[j];
        var docId := SectionDoc(taskId, s.ordinal, j);
        sectionEntries := sectionEntries[docId :=
          SectionEntry(docId, taskId, s.sectionId, s.ordinal, s.heading, j, chunk.start, chunk.text,
                       j < |s.chunks| - 1 || s.cut, revision)];
        miniSearch.Add(docId, SectionFields(HeadingText(s.heading), chunk.text));
        docIds := docIds + [docId];
      }
      HalfFilled(sectionEntries, miniSearch.docs, model, taskId, revision, sections, s);
    }

    /** Indexes the sections in order until a limit is reached; the document itself is not listed yet. */
    method IndexAll(taskId: string, revision: string, ordered: seq<SectionInput>, ghost cap: int)
      returns (sections: seq<SectionMeta>, truncated: bool, documentChars: nat)
      requires limits.Ok() && InputsOk(ordered) && Ascending(ordered)
      requires cap == Numbers.Min(limits.maxDocumentChars, limits.maxCorpusChars - chars)
      requires EntriesAgree(sectionEntries, miniSearch.docs, WithSections(model, taskId, revision, []))
      modifies this`sectionEntries, this`chars, miniSearch
      ensures var whole := IndexSections(ordered, 0, cap, limits);
              && sections == MetasOf(taskId, whole.sections)
              && truncated == whole.truncated
              && documentChars == SectionsChars(whole.sections)
              && chars == old(chars) + documentChars
              && EntriesAgree(sectionEntries, miniSearch.docs, WithSections(model, taskId, revision, whole.sections))
    {
      hide EntriesAgree, IndexSections, IndexSection, SectionsOk, ChunksOf, MetaOf, Progress, SectionsChars, InputsOk;
      ghost var whole := IndexSections(ordered, 0, cap, limits);
      ProgressStart(ordered, cap, limits);
      sections, truncated, documentChars := [], false, 0;
      ghost var done: seq<Section> := [];
      var i := 0;
      while i < |ordered|
        invariant 0 <= i <= |ordered| && !truncated
        invariant Progress(whole, done, ordered, i, documentChars, cap, limits)
        invariant sections == MetasOf(taskId, done)
        invariant chars == old(chars) + documentChars
        invariant EntriesAgree(sectionEntries, miniSearch.docs, WithSections(model, taskId, revision, done))
      {
        var heading := ClipHeading(ordered[i].heading, limits.maxTitleChars);
        var budget := Numbers.Min(limits.maxDocumentChars - documentChars, limits.maxCorpusChars - chars)
                      - HeadingChars(heading);
        if budget < 0 {
          ProgressStop(whole, done, ordered, i, documentChars, cap, limits);
          truncated := true;
          return;
        }
        ghost var used := documentChars;
        ghost var s;
        var meta;
        meta, s := IndexSectionInto(taskId, revision, ordered[i], heading, budget, done, whole, ordered, i, used, cap);
        sections := sections + [meta];
        documentChars, chars := documentChars + meta.chars, chars + meta.chars;
        done := done + [s];
        if meta.cut {
          truncated := true;
          return;
        }
        i := i + 1;
      }
      ProgressEnd(whole, done, ordered, documentChars, cap, limits);
    }

    /** Cuts one section to its budget, chunks it and adds its entries. */
    method IndexSectionInto(taskId: string, revision: string, section: SectionInput, heading: Option<Text>, budget: nat,
                            ghost done: seq<Section>, ghost whole: Indexed, ghost ordered: seq<SectionInput>, ghost i: nat,
                            ghost used: nat, ghost cap: int)
      returns (meta: SectionMeta, ghost s: Section)
      requires limits.Ok() && InputsOk(ordered) && i < |ordered| && section == ordered[i]
      requires Progress(whole, done, ordered, i, used, cap, limits) && budget == Budget(ordered[i..], used, cap, limits)
      requires heading == ClipHeading(section.heading, limits.maxTitleChars)
      requires EntriesAgree(sectionEntries, miniSearch.docs, WithSections(model, taskId, revision, done))
      modifies this`sectionEntries, miniSearch
      ensures meta == MetaOf(taskId, s) && MetasOf(taskId, done + [s]) == MetasOf(taskId, done) + [meta]
      ensures EntriesAgree(sectionEntries, miniSearch.docs, WithSections(model, taskId, revision, done + [s]))
      ensures meta.cut ==> whole == Indexed(done + [s], true) && used + meta.chars == SectionsChars(whole.sections)
      ensures !meta.cut ==> Progress(whole, done + [s], ordered, i + 1, used + meta.chars, cap, limits)
    {
      hide EntriesAgree, IndexSections, IndexSection, SectionsOk, ChunksOf, Progress;
      var cut := |section.text| > budget;
      var text := Clip(section.text, budget);
      var chunked := ChunkText(text, limits.chunkChars, limits.chunkOverlapChars);
      var indexed := Section(section.sectionId, section.ordinal, heading, cut, chunked.chunks);
      s := indexed;
      IndexSectionIs(section, budget, limits, s);
      ProgressStep(whole, done, ordered, i, used, cap, limits, s);
      var docIds := AddSection(taskId, revision, indexed, done);
      MetasPush(taskId, done, s);
      meta := SectionMeta(section.sectionId, section.ordinal, heading, cut, docIds, |text| + HeadingChars(heading));
    }

    method ReplaceDocument(document: DocumentInput) returns (ok: bool)
      requires Valid()
      modifies this, miniSearch
      ensures Valid()
      ensures ok <==> AcceptsDocument(document)
      ensures model == if ok then Apply(old(model), IndexModel.ReplaceDocument(document), Cfg()) else old(model)
    {
      hide Agree, AcceptsDocument, EntriesAgree, IndexSections, OfferedSections, EntryOf, Chars, IndexDocument, DocumentCap;
      if !AcceptsDocument(document) {
        return false;
      }
      var taskId := document.taskId;
      RemoveDocument(taskId);
      ghost var before, removed := Now(), model;
      TotalAgrees(before, removed);
      DocumentUnlisted(before, removed, taskId, document.revision);
      ghost var cap := DocumentCap(old(model), taskId, limits);
      var ordered := OfferedSections(document, limits);
      DocumentRoom(old(model), removed, taskId, limits);
      var sections, truncated, documentChars := IndexAll(taskId, document.revision, ordered, cap);
      ghost var d := IndexDocument(document, cap, limits);
      IndexDocumentOk(document, cap, limits);
      IndexDocumentIs(document, cap, limits);
      AcceptedDocumentId(document);
      PutAfterRemove(old(model).documents, taskId, d);
      DocumentPut(before, removed, taskId, d, sectionEntries, miniSearch.docs);
      var entry := DocumentEntry(taskId, document.revision,
                                 |document.sections| > limits.maxSectionsPerDocument || truncated, sections, documentChars);
      EntryIs(taskId, d, entry);
      documentEntries := documentEntries[taskId := entry];
      model := removed.(documents := removed.documents[taskId := d]);
      return true;
    }

    method Compact()
      requires Valid()
      modifies miniSearch
      ensures Valid() && miniSearch.dirtCount == 0
    {
      hide Agree;
      if miniSearch.dirtCount > 0 {
        miniSearch.Vacuum();
      }
    }

    method ListTasks() returns (s: seq<TaskRecord>)
      requires Valid()
      ensures ListsTasks(s) && TasksIn(s) == taskRecords
    {
      hide Agree, ListsTasks;
      RecordsNamed(Now(), model);
      var rest := taskRecords.Keys;
      s := [];
      assert ListsTasks(s) by { EmptyLists(); }
      while rest != {}
        invariant rest <= taskRecords.Keys && ListsTasks(s) && TasksIn(s) == taskRecords - rest
      {
        var k :| k in rest;
        TaskListed(s, taskRecords[k]);
        s := s + [taskRecords[k]];
        rest := rest - {k};
      }
    }

    method ListMessages() returns (s: seq<MessageRecord>)
      requires Valid()
      ensures ListsMessages(s) && MessagesIn(s) == messageRecords
    {
      hide Agree, ListsMessages;
      RecordsNamed(Now(), model);
      var rest := messageRecords.Keys;
      s := [];
      assert ListsMessages(s) by { EmptyLists(); }
      while rest != {}
        invariant rest <= messageRecords.Keys && ListsMessages(s) && MessagesIn(s) == messageRecords - rest
      {
        var k :| k in rest;
        MessageListed(s, messageRecords[k]);
        s := s + [messageRecords[k]];
        rest := rest - {k};
      }
    }

    /** Reads a document back from its metadata and the section entries. */
    method DescribeDocument(taskId: string) returns (d: Document)
      requires Valid() && taskId in documentEntries
      ensures taskId in model.documents && d == model.documents[taskId]
    {
      hide Agree, EntriesAgree, SectionsOk, SectionsChars;
      DocumentListed(Now(), model, taskId);
      var entry := documentEntries[taskId];
      ghost var stored := model.documents[taskId].sections;
      var sections: seq<Section> := [];
      for i := 0 to |entry.sections|
        invariant sections == stored[..i]
      {
        assert entry.sections[i] == MetaOf(taskId, stored[i]);
        var section := DescribeSection(taskId, i, entry.sections[i]);
        TakeNext(stored, i);
        sections := sections + [section];
      }
      d := Document(entry.revision, entry.truncated, sections);
    }

    /** Reads a section back from its metadata and the entries of its chunks. */
    method DescribeSection(taskId: string, i: nat, meta: SectionMeta) returns (s: Section)
      requires Valid() && taskId in model.documents && i < |model.documents[taskId].sections|
      requires meta == MetaOf(taskId, model.documents[taskId].sections[i])
      ensures s == model.documents[taskId].sections[i]
    {
      hide Agree, EntriesAgree, SectionsOk, SectionsChars;
      ghost var stored := model.documents[taskId].sections[i];
      var chunks: seq<TextChunk> := [];
      for j := 0 to |meta.docIds|
        invariant chunks == stored.chunks[..j]
      {
        ChunkStored(Now(), model, taskId, i, j);
        var chunk := sectionEntries[meta.docIds[j]];
        TakeNext(stored.chunks, j);
        chunks := chunks + [TextChunk(chunk.start, chunk.text)];
      }
      assert |meta.docIds| == |stored.chunks|;
      assert stored.chunks[..|stored.chunks|] == stored.chunks;
      s := Section(meta.sectionId, meta.ordinal, meta.heading, meta.cut, chunks);
    }

    method ListDocuments() returns (s: seq<ArtifactDocument>)
      requires Valid()
      ensures ListsDocuments(s) && DocumentsIn(s) == model.documents
    {
      hide Agree, ListsDocuments;
      RecordsNamed(Now(), model);
      var rest := documentEntries.Keys;
      s := [];
      assert ListsDocuments(s) by { EmptyLists(); }
      while rest != {}
        invariant rest <= documentEntries.Keys && ListsDocuments(s) && DocumentsIn(s) == model.documents - rest
      {
        var k :| k in rest;
        var d := DescribeDocument(k);
        DocumentListedToo(s, ArtifactDocument(k, d));
        s := s + [ArtifactDocument(k, d)];
        rest := rest - {k};
      }
    }

    /** None where the source throws: the index must be compacted first. */
    method ToArtifact(generation: int, appliedThrough: int) returns (r: Option<Artifact>)
      requires Valid()
      ensures r.None? <==> miniSearch.dirtCount > 0
      ensures r.Some? ==>
                && Describes(r.value, model, miniSearch.docs)
                && r.value.includeChat == includeChat
                && (-MAX_SAFE_INTEGER <= appliedThrough <= MAX_SAFE_INTEGER ==> HeaderError(r.value, ownerId, generation) == None)
    {
      hide Agree;
      if miniSearch.dirtCount > 0 {
        return None;
      }
      RecordsNamed(Now(), model);
      var tasks := ListTasks();
      var documents := ListDocuments();
      var messages := ListMessages();
      r := Some(Artifact(INDEX_FORMAT, INDEX_FORMAT_VERSION, TOKENIZER_FINGERPRINT, ownerId, generation, appliedThrough,
                         includeChat, messagesSkipped, tasks, documents, messages, miniSearch.docs));
    }

    constructor Load(ownerId: string, includeChat: bool, limits: Limits, a: Artifact)
      ensures fresh(miniSearch) && Now() == LoadedTables(a) && miniSearch.dirtCount == 0
      ensures this.ownerId == ownerId && this.includeChat == includeChat && this.limits == limits
    {
      this.ownerId, this.includeChat, this.limits := ownerId, includeChat, limits;
      miniSearch := new MiniSearch.Load(a.miniSearch);
      taskRecords, documentEntries, sectionEntries := map[], map[], map[];
      messageRecords, messagesByTask := map[], map[];
      chars, messagesSkipped := 0, a.messagesSkipped;
      model := EMPTY;
    }

    method LoadDocument(d: ArtifactDocument) returns (ok: bool)
      modifies this
      ensures ok <==> RestoreDocument(old(Now()), d).Some?
      ensures ok ==> Now() == RestoreDocument(old(Now()), d).value
    {
      hide RestoreSections, IsUuidV7, IsRevision, SectionsChars;
      var taskId, revision := d.taskId, d.document.revision;
      if !IsUuidV7(taskId) || !IsRevision(revision) || taskId in documentEntries {
        return false;
      }
      var metas, documentChars;
      ok, metas, documentChars := LoadSections(taskId, revision, d.document.sections);
      if ok {
        documentEntries := documentEntries[taskId := DocumentEntry(taskId, revision, d.document.truncated, metas, documentChars)];
        chars := chars + documentChars;
      }
    }

    method LoadSections(taskId: string, revision: string, listed: seq<Section>)
      returns (ok: bool, metas: seq<SectionMeta>, documentChars: nat)
      modifies this`sectionEntries
      ensures var r := RestoreSections(old(sectionEntries), miniSearch.docs, taskId, revision, listed);
              (ok <==> r.Some?) && (ok ==> sectionEntries == r.value)
      ensures ok ==> metas == MetasOf(taskId, listed) && documentChars == SectionsChars(listed)
    {
      hide RestoreChunks, RestoreSections, IsSectionId, MetaOf;
      ghost var before, docs := sectionEntries, miniSearch.docs;
      ok, metas, documentChars := true, [], 0;
      NothingRestored(before, docs, taskId, revision);
      assert listed[..0] == [];
      for i := 0 to |listed|
        invariant ok && RestoreSections(before, docs, taskId, revision, listed[..i]) == Some(sectionEntries)
        invariant metas == MetasOf(taskId, listed[..i]) && documentChars == SectionsChars(listed[..i])
      {
        var s := listed[i];
        assert listed[..i + 1] == listed[..i] + [s];
        SectionsRestoreStep(before, docs, taskId, revision, listed[..i], s);
        if s.chunks == [] || !IsSectionId(s.sectionId) || !IsNonNegativeSafe(s.ordinal) {
          SectionsFail(before, docs, taskId, revision, listed, i + 1);
          return false, metas, documentChars;
        }
        var meta := LoadSection(taskId, revision, s);
        if meta.None? {
          SectionsFail(before, docs, taskId, revision, listed, i + 1);
          return false, metas, documentChars;
        }
        MetasPush(taskId, listed[..i], s);
        metas, documentChars := metas + [meta.value], documentChars + meta.value.chars;
      }
      assert listed[..|listed|] == listed;
    }

    method LoadSection(taskId: string, revision: string, s: Section) returns (meta: Option<SectionMeta>)
      requires s.chunks != []
      modifies this`sectionEntries
      ensures var r := RestoreChunks(old(sectionEntries), miniSearch.docs, taskId, revision, s, |s.chunks|);
              (meta.Some? <==> r.Some?) && (meta.Some? ==> sectionEntries == r.value)
      ensures meta.Some? ==> meta.value == MetaOf(taskId, s) && meta.value.chars == s.Chars()
    {
      ghost var before := sectionEntries;
      var ids: seq<DocId> := [];
      for j := 0 to |s.chunks|
        invariant RestoreChunks(before, miniSearch.docs, taskId, revision, s, j) == Some(sectionEntries)
        invariant ids == ChunkIds(taskId, s, j)
      {
        var chunk, docId := s.chunks[j], SectionDoc(taskId, s.ordinal, j);
        if docId !in miniSearch.docs {
          ChunksFail(before, miniSearch.docs, taskId, revision, s, j + 1);
          return None;
        }
        sectionEntries := sectionEntries[docId :=
          SectionEntry(docId, taskId, s.sectionId, s.ordinal, s.heading, j, chunk.start, chunk.text,
                       j < |s.chunks| - 1 || s.cut, revision)];
        ids := ids + [docId];
      }
      var last := s.chunks[|s.chunks| - 1];
      return Some(SectionMeta(s.sectionId, s.ordinal, s.heading, s.cut, ids,
                              last.start + |last.text| + HeadingChars(s.heading)));
    }

    method LoadTasks(tasks: seq<TaskRecord>) returns (ok: bool)
      modifies this
      ensures ok <==> RestoreTasks(old(Now()), tasks).Some?
      ensures ok ==> Now() == RestoreTasks(old(Now()), tasks).value
    {
      hide AcceptsTask;
      ghost var start := Now();
      assert tasks[..0] == [];
      for i := 0 to |tasks|
        invariant RestoreTasks(start, tasks[..i]) == Some(Now())
      {
        var task := tasks[i];
        assert tasks[..i + 1][..i] == tasks[..i];
        if !AcceptsTask(task) || TitleDoc(task.id) !in miniSearch.docs || task.id in taskRecords {
          TasksFail(start, tasks, i + 1);
          return false;
        }
        taskRecords := taskRecords[task.id := task];
        chars := chars + |task.title|;
      }
      assert tasks[..|tasks|] == tasks;
      return true;
    }

    method LoadDocuments(documents: seq<ArtifactDocument>) returns (ok: bool)
      modifies this
      ensures ok <==> RestoreDocuments(old(Now()), documents).Some?
      ensures ok ==> Now() == RestoreDocuments(old(Now()), documents).value
    {
      hide RestoreDocument;
      ghost var start := Now();
      assert documents[..0] == [];
      for i := 0 to |documents|
        invariant RestoreDocuments(start, documents[..i]) == Some(Now())
      {
        assert documents[..i + 1][..i] == documents[..i];
        var loaded := LoadDocument(documents[i]);
        if !loaded {
          DocumentsFail(start, documents, i + 1);
          return false;
        }
      }
      assert documents[..|documents|] == documents;
      return true;
    }

    method LoadMessages(messages: seq<MessageRecord>) returns (ok: bool)
      modifies this
      ensures ok <==> RestoreMessages(old(Now()), messages).Some?
      ensures ok ==> Now() == RestoreMessages(old(Now()), messages).value
    {
      hide AcceptsMessage, ByTaskAdd;
      ghost var start := Now();
      assert messages[..0] == [];
      for i := 0 to |messages|
        invariant RestoreMessages(start, messages[..i]) == Some(Now())
      {
        var message := messages[i];
        assert messages[..i + 1][..i] == messages[..i];
        if !AcceptsMessage(message) || MessageDoc(message.id) !in miniSearch.docs || message.id in messageRecords {
          MessagesFail(start, messages, i + 1);
          return false;
        }
        messageRecords := messageRecords[message.id := message];
        messagesByTask := ByTaskAdd(messagesByTask, message);
        chars := chars + |message.text|;
      }
      assert messages[..|messages|] == messages;
      return true;
    }

    /** restoreRecords: false where it throws. */
    method RestoreRecords(a: Artifact) returns (ok: bool)
      requires Now() == LoadedTables(a)
      modifies this
      ensures ok <==> Restored(a).Some?
      ensures ok ==> Now() == Restored(a).value
    {
      hide RestoreTasks, RestoreDocuments, RestoreMessages;
      ok := LoadTasks(a.tasks);
      if ok {
        ok := LoadDocuments(a.documents);
      }
      if ok {
        ok := LoadMessages(a.messages);
      }
    }

    /** Restores an index; what the checks let through is sound exactly under two conditions they leave out. */
    static method FromArtifact(a: Artifact, ownerId: string, generation: int, limits: Limits)
      returns (error: Option<FormatError>, index: SearchIndex?)
      requires limits.Ok()
      ensures error == LoadError(a, ownerId, generation)
      ensures error.None? <==> index != null
      ensures index != null ==>
                && fresh(index) && fresh(index.miniSearch)
                && index.Now() == Restored(a).value
                && index.includeChat == a.includeChat && index.ownerId == ownerId && index.limits == limits
                && (index.Valid() <==> SectionsAscend(a) && TextsMatch(a.miniSearch, RecordsIn(a)))
    {
      hide Agree, Restored, SectionsAscend, TextsMatch, RecordsIn;
      error, index := HeaderError(a, ownerId, generation), null;
      if error.Some? {
        return;
      }
      var loaded := new SearchIndex.Load(ownerId, a.includeChat, limits, a);
      var ok := loaded.RestoreRecords(a);
      if !ok || |loaded.miniSearch.docs| != |loaded.taskRecords| + |loaded.sectionEntries| + |loaded.messageRecords| {
        error := Some(Malformed);
        return;
      }
      loaded.Adopt();
      LoadedAgreesExactly(a, ownerId, generation);
      index := loaded;
    }

    ghost method Adopt()
      modifies this`model
      ensures (exists m :: Agree(Now(), m)) ==> Agree(Now(), model)
    {
      hide Agree;
      if m :| Agree(Now(), m) {
        model := m;
      }
    }
  }
}
