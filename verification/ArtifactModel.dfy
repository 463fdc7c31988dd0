/** The serialized index and its restoration (packages/search/src/search-index.ts, Serialization). */
module ArtifactModel {
  import opened Wrappers
  import opened SearchRecords
  import opened IndexModel
  import opened IndexTables
  import opened DocIdNames = DocIds

  const INDEX_FORMAT := "symplist.search-index"
  const INDEX_FORMAT_VERSION := 1
  const TOKENIZER_FINGERPRINT :=
    "symplist-tokenizer/1;nfkd;strip-marks;lower;fold-1;no-apostrophes;icu-word-en;max-term-64"

  datatype ArtifactDocument = ArtifactDocument(taskId: string, document: Document)

  datatype Artifact = Artifact(
    format: string, indexFormatVersion: int, tokenizerFingerprint: string,
    ownerId: string, generation: int, appliedThrough: int, includeChat: bool, messagesSkipped: bool,
    tasks: seq<TaskRecord>, documents: seq<ArtifactDocument>, messages: seq<MessageRecord>,
    miniSearch: map<DocId, Fields>)

  datatype FormatError = Malformed | FormatVersion | Fingerprint | Owner | Generation

  /* ----- Lists of records ----- */

  function TasksIn(s: seq<TaskRecord>): map<string, TaskRecord> {
    if s == [] then map[] else TasksIn(s[..|s| - 1])[s[|s| - 1].id := s[|s| - 1]]
  }

  function DocumentsIn(s: seq<ArtifactDocument>): map<string, Document> {
    if s == [] then map[] else DocumentsIn(s[..|s| - 1])[s[|s| - 1].taskId := s[|s| - 1].document]
  }

  function MessagesIn(s: seq<MessageRecord>): map<string, MessageRecord> {
    if s == [] then map[] else MessagesIn(s[..|s| - 1])[s[|s| - 1].id := s[|s| - 1]]
  }

  /** Each record is listed once. */
  predicate ListsTasks(s: seq<TaskRecord>) {
    s == [] || (ListsTasks(s[..|s| - 1]) && s[|s| - 1].id !in TasksIn(s[..|s| - 1]))
  }

  predicate ListsDocuments(s: seq<ArtifactDocument>) {
    s == [] || (ListsDocuments(s[..|s| - 1]) && s[|s| - 1].taskId !in DocumentsIn(s[..|s| - 1]))
  }

  predicate ListsMessages(s: seq<MessageRecord>) {
    s == [] || (ListsMessages(s[..|s| - 1]) && s[|s| - 1].id !in MessagesIn(s[..|s| - 1]))
  }

  /** The artifact lists exactly the given records, in any order, with the given MiniSearch documents. */
  ghost predicate Describes(a: Artifact, m: Model, docs: map<DocId, Fields>) {
    && ListsTasks(a.tasks) && TasksIn(a.tasks) == m.tasks
    && ListsDocuments(a.documents) && DocumentsIn(a.documents) == m.documents
    && ListsMessages(a.messages) && MessagesIn(a.messages) == m.messages
    && a.messagesSkipped == m.messagesSkipped
    && a.miniSearch == docs
  }

  /* ----- restoreRecords ----- */

  function RestoreTask(t: Tables, record: TaskRecord): Option<Tables> {
    if !AcceptsTask(record) || TitleDoc(record.id) !in t.docs || record.id in t.tasks then None
    else Some(t.(tasks := t.tasks[record.id := record], chars := t.chars + |record.title|))
  }

  function RestoreTasks(t: Tables, s: seq<TaskRecord>): Option<Tables> {
    if s == [] then Some(t)
    else
      var before := RestoreTasks(t, s[..|s| - 1]);
      if before.None? then None else RestoreTask(before.value, s[|s| - 1])
  }

  /** The first `j` chunks of a section entered, or None when MiniSearch lacks one of them. */
  function RestoreChunks(sections: map<DocId, SectionEntry>, docs: map<DocId, Fields>, taskId: string, revision: string,
                         s: Section, j: nat): Option<map<DocId, SectionEntry>>
    requires j <= |s.chunks|
  {
    if j == 0 then Some(sections)
    else
      var before := RestoreChunks(sections, docs, taskId, revision, s, j - 1);
      var docId := SectionDoc(taskId, s.ordinal, j - 1);
      if before.None? || docId !in docs then None
      else Some(before.value[docId := ChunkEntry(taskId, revision, s, j - 1)])
  }

  function RestoreSections(sections: map<DocId, SectionEntry>, docs: map<DocId, Fields>, taskId: string, revision: string,
                           listed: seq<Section>): Option<map<DocId, SectionEntry>> {
    if listed == [] then Some(sections)
    else
      var s := listed[|listed| - 1];
      var before := RestoreSections(sections, docs, taskId, revision, listed[..|listed| - 1]);
      if before.None? || s.chunks == [] || !IsSectionId(s.sectionId) || !IsNonNegativeSafe(s.ordinal) then None
      else RestoreChunks(before.value, docs, taskId, revision, s, |s.chunks|)
  }

  function RestoreDocument(t: Tables, d: ArtifactDocument): Option<Tables> {
    if !IsUuidV7(d.taskId) || !IsRevision(d.document.revision) || d.taskId in t.entries then None
    else
      var sections := RestoreSections(t.sections, t.docs, d.taskId, d.document.revision, d.document.sections);
      if sections.None? then None
      else Some(t.(sections := sections.value, entries := t.entries[d.taskId := EntryOf(d.taskId, d.document)],
                   chars := t.chars + SectionsChars(d.document.sections)))
  }

  function RestoreDocuments(t: Tables, s: seq<ArtifactDocument>): Option<Tables> {
    if s == [] then Some(t)
    else
      var before := RestoreDocuments(t, s[..|s| - 1]);
      if before.None? then None else RestoreDocument(before.value, s[|s| - 1])
  }

  function RestoreMessage(t: Tables, record: MessageRecord): Option<Tables> {
    if !AcceptsMessage(record) || MessageDoc(record.id) !in t.docs || record.id in t.messages then None
    else Some(t.(messages := t.messages[record.id := record], byTask := ByTaskAdd(t.byTask, record),
                 chars := t.chars + |record.text|))
  }

  function RestoreMessages(t: Tables, s: seq<MessageRecord>): Option<Tables> {
    if s == [] then Some(t)
    else
      var before := RestoreMessages(t, s[..|s| - 1]);
      if before.None? then None else RestoreMessage(before.value, s[|s| - 1])
  }

  function LoadedTables(a: Artifact): Tables {
    Tables(map[], map[], map[], map[], map[], 0, a.messagesSkipped, a.miniSearch)
  }

  /** The tables restoreRecords leaves, or None where it throws. */
  function Restored(a: Artifact): Option<Tables> {
    var tasks := RestoreTasks(LoadedTables(a), a.tasks);
    if tasks.None? then None
    else
      var documents := RestoreDocuments(tasks.value, a.documents);
      if documents.None? then None else RestoreMessages(documents.value, a.messages)
  }

  predicate CountsMatch(t: Tables) {
    |t.docs| == |t.tasks| + |t.sections| + |t.messages|
  }

  /* ----- Restoring what was described ----- */

  lemma TaskRestored(t: Tables, m: Model, record: TaskRecord)
    requires RecordTablesAgree(t, m) && AcceptsTask(record)
    requires TitleDoc(record.id) in t.docs && record.id !in m.tasks
    ensures RestoreTask(t, record).Some?
    ensures RecordTablesAgree(RestoreTask(t, record).value, m.(tasks := m.tasks[record.id := record]))
  {
    hide EntriesMatch, ByTaskMatches, EntriesOf, TasksOk, DocumentsOk, MessagesOk, TitleChars, AcceptsTask;
    TitleReplaced(m.tasks, record);
    TasksMayAdd(m.tasks, record);
  }

  lemma MessageRestored(t: Tables, m: Model, record: MessageRecord)
    requires RecordTablesAgree(t, m) && AcceptsMessage(record)
    requires MessageDoc(record.id) in t.docs && record.id !in m.messages
    ensures RestoreMessage(t, record).Some?
    ensures RecordTablesAgree(RestoreMessage(t, record).value, m.(messages := m.messages[record.id := record]))
  {
    hide EntriesMatch, ByTaskMatches, EntriesOf, TasksOk, DocumentsOk, MessagesOk, MessageChars, AcceptsMessage, ByTaskAdd;
    ByTaskAdded(t.byTask, m.messages, record);
    MessageAdded(m.messages, record);
    MessagesMayAdd(m.messages, record);
  }

  lemma {:induction false} TasksRestored(t: Tables, m: Model, s: seq<TaskRecord>)
    requires RecordTablesAgree(t, m) && m.tasks == map[] && ListsTasks(s)
    requires forall k :: k in TasksIn(s) ==> TasksIn(s)[k].id == k && AcceptsTask(TasksIn(s)[k]) && TitleDoc(k) in t.docs
    ensures RestoreTasks(t, s).Some?
    ensures RestoreTasks(t, s).value.docs == t.docs
    ensures RecordTablesAgree(RestoreTasks(t, s).value, m.(tasks := TasksIn(s)))
  {
    hide RecordTablesAgree, AcceptsTask;
    if s != [] {
      var front, last := s[..|s| - 1], s[|s| - 1];
      assert forall k :: k in TasksIn(front) ==> k in TasksIn(s) && TasksIn(s)[k] == TasksIn(front)[k];
      assert last.id in TasksIn(s) && TasksIn(s)[last.id] == last;
      TasksRestored(t, m, front);
      TaskRestored(RestoreTasks(t, front).value, m.(tasks := TasksIn(front)), last);
    } else {
      assert m.(tasks := TasksIn(s)) == m;
    }
  }

  lemma {:induction false} MessagesRestored(t: Tables, m: Model, s: seq<MessageRecord>)
    requires RecordTablesAgree(t, m) && m.messages == map[] && ListsMessages(s)
    requires forall k :: k in MessagesIn(s) ==> MessagesIn(s)[k].id == k && AcceptsMessage(MessagesIn(s)[k]) && MessageDoc(k) in t.docs
    ensures RestoreMessages(t, s).Some?
    ensures RestoreMessages(t, s).value.docs == t.docs
    ensures RecordTablesAgree(RestoreMessages(t, s).value, m.(messages := MessagesIn(s)))
  {
    hide RecordTablesAgree, AcceptsMessage;
    if s != [] {
      var front, last := s[..|s| - 1], s[|s| - 1];
      assert forall k :: k in MessagesIn(front) ==> k in MessagesIn(s) && MessagesIn(s)[k] == MessagesIn(front)[k];
      assert last.id in MessagesIn(s) && MessagesIn(s)[last.id] == last;
      MessagesRestored(t, m, front);
      MessageRestored(RestoreMessages(t, front).value, m.(messages := MessagesIn(front)), last);
    } else {
      assert m.(messages := MessagesIn(s)) == m;
    }
  }

  /** MiniSearch holds every chunk of the sections. */
  ghost predicate HoldsChunks(docs: map<DocId, Fields>, taskId: string, sections: seq<Section>) {
    forall i, j :: 0 <= i < |sections| && 0 <= j < |sections[i].chunks| ==> SectionDoc(taskId, sections[i].ordinal, j) in docs
  }

  ghost predicate HalfEntries(entries: map<DocId, SectionEntry>, documents: map<string, Document>, t: string, revision: string,
                              s: Section, j: nat)
    requires j <= |s.chunks|
  {
    forall id :: Find(entries, id) == HalfEntry(documents, t, revision, s, j, true, id)
  }

  lemma {:induction false} ChunksRestored(entries: map<DocId, SectionEntry>, docs: map<DocId, Fields>,
                                          documents: map<string, Document>, t: string, revision: string, s: Section, j: nat)
    requires j <= |s.chunks| && EntriesMatch(entries, documents)
    requires forall k :: 0 <= k < j ==> SectionDoc(t, s.ordinal, k) in docs
    ensures RestoreChunks(entries, docs, t, revision, s, j).Some?
    ensures HalfEntries(RestoreChunks(entries, docs, t, revision, s, j).value, documents, t, revision, s, j)
  {
    hide EntryAt;
    if j > 0 {
      ChunksRestored(entries, docs, documents, t, revision, s, j - 1);
      var before, after := RestoreChunks(entries, docs, t, revision, s, j - 1).value, RestoreChunks(entries, docs, t, revision, s, j).value;
      forall id
        ensures Find(after, id) == HalfEntry(documents, t, revision, s, j, true, id)
      {
        assert Find(before, id) == HalfEntry(documents, t, revision, s, j - 1, true, id);
      }
    }
  }

  lemma ChunksComplete(entries: map<DocId, SectionEntry>, documents: map<string, Document>, t: string, revision: string,
                       sections: seq<Section>, s: Section)
    requires SectionsOk(sections + [s])
    requires HalfEntries(entries, documents[t := Document(revision, false, sections)], t, revision, s, |s.chunks|)
    ensures EntriesMatch(entries, documents[t := Document(revision, false, sections + [s])])
  {
    var before, after := documents[t := Document(revision, false, sections)], documents[t := Document(revision, false, sections + [s])];
    forall id
      ensures Find(entries, id) == EntryAt(after, id)
    {
      assert Find(entries, id) == HalfEntry(before, t, revision, s, |s.chunks|, true, id);
      if id.SectionDoc? && id.taskId == t {
        EntryInPush(t, revision, sections, s, id.ordinal, id.chunk);
        EntryInNew(t, revision, sections, s, id.chunk);
      }
    }
  }

  lemma {:induction false} SectionsRestored(entries: map<DocId, SectionEntry>, docs: map<DocId, Fields>,
                                            documents: map<string, Document>, t: string, revision: string, sections: seq<Section>)
    requires EntriesMatch(entries, documents[t := Document(revision, false, [])]) && SectionsOk(sections)
    requires HoldsChunks(docs, t, sections)
    ensures RestoreSections(entries, docs, t, revision, sections).Some?
    ensures EntriesMatch(RestoreSections(entries, docs, t, revision, sections).value, documents[t := Document(revision, false, sections)])
  {
    if sections != [] {
      var front, s := sections[..|sections| - 1], sections[|sections| - 1];
      hide EntriesMatch, RestoreChunks;
      SectionsOkFrom(sections, |front|);
      assert s.Ok();
      assert sections == front + [s];
      assert HoldsChunks(docs, t, front) by {
        assert forall i :: 0 <= i < |front| ==> front[i] == sections[i];
      }
      hide SectionsOk;
      SectionsRestored(entries, docs, documents, t, revision, front);
      var before := RestoreSections(entries, docs, t, revision, front).value;
      ChunksRestored(before, docs, documents[t := Document(revision, false, front)], t, revision, s, |s.chunks|);
      ChunksComplete(RestoreChunks(before, docs, t, revision, s, |s.chunks|).value, documents, t, revision, front, s);
    }
  }

  lemma SameEntryTable(entries: map<DocId, SectionEntry>, before: map<string, Document>, after: map<string, Document>)
    requires EntriesMatch(entries, before) && forall id :: EntryAt(before, id) == EntryAt(after, id)
    ensures EntriesMatch(entries, after)
  {
    forall id
      ensures Find(entries, id) == EntryAt(after, id)
    {
      assert Find(entries, id) == EntryAt(before, id);
    }
  }

  lemma SectionTableRestored(t: Tables, m: Model, d: ArtifactDocument)
    requires EntriesMatch(t.sections, m.documents) && d.taskId !in m.documents
    requires SectionsOk(d.document.sections) && HoldsChunks(t.docs, d.taskId, d.document.sections)
    ensures var r := RestoreSections(t.sections, t.docs, d.taskId, d.document.revision, d.document.sections);
            r.Some? && EntriesMatch(r.value, m.documents[d.taskId := d.document])
  {
    hide EntriesMatch, RestoreSections, EntryAt, SectionsOk;
    var id, revision, sections := d.taskId, d.document.revision, d.document.sections;
    var open, closed := m.documents[id := Document(revision, false, [])], m.documents[id := Document(revision, false, sections)];
    forall x
      ensures EntryAt(m.documents, x) == EntryAt(open, x)
    {
      NoSections(m, id, revision, x);
      assert m.documents - {id} == m.documents;
    }
    SameEntryTable(t.sections, m.documents, open);
    SectionsRestored(t.sections, t.docs, m.documents, id, revision, sections);
    forall x
      ensures EntryAt(closed, x) == EntryAt(m.documents[id := d.document], x)
    {
      WholeSections(m, id, d.document, x);
    }
    SameEntryTable(RestoreSections(t.sections, t.docs, id, revision, sections).value, closed, m.documents[id := d.document]);
  }

  lemma DocumentRestored(t: Tables, m: Model, d: ArtifactDocument)
    requires RecordTablesAgree(t, m) && d.taskId !in m.documents && IsUuidV7(d.taskId) && d.document.Ok()
    requires HoldsChunks(t.docs, d.taskId, d.document.sections)
    ensures RestoreDocument(t, d).Some?
    ensures RecordTablesAgree(RestoreDocument(t, d).value, m.(documents := m.documents[d.taskId := d.document]))
  {
    hide EntriesMatch, RestoreSections, SectionsOk, ByTaskMatches, EntriesOf, EntryOf, TasksOk, DocumentsOk, MessagesOk,
         DocumentChars, IsUuidV7, IsRevision, HoldsChunks;
    SectionTableRestored(t, m, d);
    EntriesOfChange(m.documents, d.taskId, d.document);
    DocumentAdded(m.documents, d.taskId, d.document);
    DocumentsMayAdd(m.documents, d.taskId, d.document);
    Unlisted(m.documents, d.taskId);
  }

  lemma Unlisted(documents: map<string, Document>, id: string)
    requires id !in documents
    ensures id !in EntriesOf(documents)
  {
  }

  lemma {:induction false} DocumentsRestored(t: Tables, m: Model, s: seq<ArtifactDocument>)
    requires RecordTablesAgree(t, m) && m.documents == map[] && ListsDocuments(s)
    requires forall k :: k in DocumentsIn(s) ==> IsUuidV7(k) && DocumentsIn(s)[k].Ok() && HoldsChunks(t.docs, k, DocumentsIn(s)[k].sections)
    ensures RestoreDocuments(t, s).Some?
    ensures RestoreDocuments(t, s).value.docs == t.docs
    ensures RecordTablesAgree(RestoreDocuments(t, s).value, m.(documents := DocumentsIn(s)))
  {
    hide RecordTablesAgree, IsUuidV7, HoldsChunks, SectionsOk, IsRevision, RestoreSections;
    if s != [] {
      var front, last := s[..|s| - 1], s[|s| - 1];
      assert forall k :: k in DocumentsIn(front) ==> k in DocumentsIn(s) && DocumentsIn(s)[k] == DocumentsIn(front)[k];
      assert last.taskId in DocumentsIn(s) && DocumentsIn(s)[last.taskId] == last.document;
      DocumentsRestored(t, m, front);
      DocumentRestored(RestoreDocuments(t, front).value, m.(documents := DocumentsIn(front)), last);
    } else {
      assert m.(documents := DocumentsIn(s)) == m;
    }
  }

  /** The records determine every table. */
  lemma TablesUnique(t: Tables, u: Tables, m: Model)
    requires RecordTablesAgree(t, m) && RecordTablesAgree(u, m) && t.docs == u.docs
    ensures t == u
  {
    hide EntryAt, EntriesOf, Chars, TasksOk, DocumentsOk, MessagesOk, MessagesOf;
    forall id
      ensures id in t.sections <==> id in u.sections
      ensures id in t.sections ==> t.sections[id] == u.sections[id]
    {
      assert Find(t.sections, id) == EntryAt(m.documents, id) == Find(u.sections, id);
    }
    assert t.sections == u.sections;
    forall k
      ensures k in t.byTask <==> k in u.byTask
      ensures k in t.byTask ==> t.byTask[k] == u.byTask[k]
    {
      assert MessagesOf(m.messages, k) == (if k in t.byTask then t.byTask[k] else {});
      assert MessagesOf(m.messages, k) == (if k in u.byTask then u.byTask[k] else {});
    }
    assert t.byTask == u.byTask;
  }

  lemma {:induction false} EntryPresent(taskId: string, revision: string, sections: seq<Section>, i: nat, chunk: nat)
    requires SectionsOk(sections) && i < |sections| && chunk < |sections[i].chunks|
    ensures EntryIn(taskId, revision, sections, sections[i].ordinal, chunk) == Some(ChunkEntry(taskId, revision, sections[i], chunk))
  {
    var n := |sections| - 1;
    if i < n {
      EntryPresent(taskId, revision, sections[..n], i, chunk);
    }
  }

  lemma AgreeHolds(t: Tables, m: Model)
    requires Agree(t, m)
    ensures forall k :: k in m.tasks ==> TitleDoc(k) in t.docs
    ensures forall k :: k in m.messages ==> MessageDoc(k) in t.docs
    ensures forall k :: k in m.documents ==> HoldsChunks(t.docs, k, m.documents[k].sections)
  {
    hide EntriesMatch, ByTaskMatches, EntriesOf, Chars, EntryIn, IsUuidV7, IsRevision, SectionsOk;
    forall k | k in m.tasks
      ensures TitleDoc(k) in t.docs
    {
      assert Find(t.docs, TitleDoc(k)) == FieldsAt(m, TitleDoc(k));
    }
    forall k | k in m.messages
      ensures MessageDoc(k) in t.docs
    {
      assert Find(t.docs, MessageDoc(k)) == FieldsAt(m, MessageDoc(k));
    }
    forall k, i, j | k in m.documents && 0 <= i < |m.documents[k].sections| && 0 <= j < |m.documents[k].sections[i].chunks|
      ensures SectionDoc(k, m.documents[k].sections[i].ordinal, j) in t.docs
    {
      var id := SectionDoc(k, m.documents[k].sections[i].ordinal, j);
      EntryPresent(k, m.documents[k].revision, m.documents[k].sections, i, j);
      assert Find(t.docs, id) == FieldsAt(m, id);
    }
  }

  /** Restoring an artifact that describes an index gives back every table of that index. */
  lemma RestoredRoundTrip(t: Tables, m: Model, a: Artifact)
    requires Agree(t, m) && Describes(a, m, t.docs)
    ensures Restored(a) == Some(t)
  {
    hide EntriesMatch, ByTaskMatches, EntriesOf, Chars, RestoreTasks, RestoreDocuments, RestoreMessages, HoldsChunks, DocsMatch,
         AcceptsTask, AcceptsMessage, IsUuidV7, IsRevision, SectionsOk;
    AgreeHolds(t, m);
    var start, none := LoadedTables(a), EMPTY.(messagesSkipped := m.messagesSkipped);
    LoadedAgrees(a, none);
    TasksRestored(start, none, a.tasks);
    var withTasks := none.(tasks := TasksIn(a.tasks));
    DocumentsRestored(RestoreTasks(start, a.tasks).value, withTasks, a.documents);
    var withDocuments := withTasks.(documents := DocumentsIn(a.documents));
    var documents := RestoreDocuments(RestoreTasks(start, a.tasks).value, a.documents).value;
    MessagesRestored(documents, withDocuments, a.messages);
    assert withDocuments.(messages := MessagesIn(a.messages)) == m;
    TablesUnique(RestoreMessages(documents, a.messages).value, t, m);
  }

  lemma LoadedAgrees(a: Artifact, m: Model)
    requires m == EMPTY.(messagesSkipped := a.messagesSkipped)
    ensures RecordTablesAgree(LoadedTables(a), m)
  {
  }

  lemma {:induction false} ImageSize(keys: set<string>, ids: set<DocId>, title: bool)
    requires ids == if title then (set k | k in keys :: TitleDoc(k)) else (set k | k in keys :: MessageDoc(k))
    ensures |ids| == |keys|
    decreases |keys|
  {
    if keys != {} {
      var k :| k in keys;
      var id := if title then TitleDoc(k) else MessageDoc(k);
      var rest := keys - {k};
      assert ids - {id} == if title then (set k | k in rest :: TitleDoc(k)) else (set k | k in rest :: MessageDoc(k));
      ImageSize(rest, ids - {id}, title);
      assert |ids| == |ids - {id}| + 1;
    }
  }

  ghost function TitleIds(m: Model): set<DocId> {
    set k | k in m.tasks.Keys :: TitleDoc(k)
  }

  ghost function MessageIds(m: Model): set<DocId> {
    set k | k in m.messages.Keys :: MessageDoc(k)
  }

  lemma LiveIds(t: Tables, m: Model, id: DocId)
    requires Agree(t, m)
    ensures id in t.docs <==> id in TitleIds(m) || id in t.sections || id in MessageIds(m)
    ensures id in t.sections ==> id.SectionDoc?
  {
    hide ByTaskMatches, EntriesOf, Chars, EntryAt, TasksOk, DocumentsOk, MessagesOk;
    assert Find(t.docs, id) == FieldsAt(m, id);
    assert Find(t.sections, id) == EntryAt(m.documents, id);
    OnlySections(m.documents, id);
  }

  lemma DisjointSizes(all: set<DocId>, a: set<DocId>, b: set<DocId>, c: set<DocId>)
    requires all == a + b + c && a !! b && a !! c && b !! c
    ensures |all| == |a| + |b| + |c|
  {
    assert |a + b| == |a| + |b|;
  }

  lemma LiveKeys(t: Tables, m: Model)
    requires Agree(t, m)
    ensures t.docs.Keys == TitleIds(m) + t.sections.Keys + MessageIds(m)
    ensures TitleIds(m) !! t.sections.Keys && MessageIds(m) !! t.sections.Keys
  {
    hide Agree, TitleIds, MessageIds;
    forall id
      ensures id in t.docs <==> id in TitleIds(m) || id in t.sections || id in MessageIds(m)
      ensures id in t.sections ==> id !in TitleIds(m) && id !in MessageIds(m)
    {
      LiveIds(t, m, id);
      IdKinds(m, id);
    }
  }

  lemma IdKinds(m: Model, id: DocId)
    ensures id in TitleIds(m) ==> id.TitleDoc?
    ensures id in MessageIds(m) ==> id.MessageDoc?
  {
  }

  lemma TitleAndMessageIds(m: Model)
    ensures TitleIds(m) !! MessageIds(m)
    ensures |TitleIds(m)| == |m.tasks| && |MessageIds(m)| == |m.messages|
  {
    ImageSize(m.tasks.Keys, TitleIds(m), true);
    ImageSize(m.messages.Keys, MessageIds(m), false);
    assert |m.tasks.Keys| == |m.tasks| && |m.messages.Keys| == |m.messages|;
  }

  /** MiniSearch counts one document for each task, section entry and message. */
  lemma AgreeCounts(t: Tables, m: Model)
    requires Agree(t, m)
    ensures CountsMatch(t)
  {
    hide Agree, TitleIds, MessageIds;
    RecordsAgree(t, m);
    LiveKeys(t, m);
    TitleAndMessageIds(m);
    DisjointSizes(t.docs.Keys, TitleIds(m), t.sections.Keys, MessageIds(m));
    assert |t.docs.Keys| == |t.docs| && |t.sections.Keys| == |t.sections|;
  }

  lemma OnlySections(documents: map<string, Document>, id: DocId)
    ensures EntryAt(documents, id).Some? ==> id.SectionDoc?
  {
  }

  /* ----- Failing and reading lists ----- */

  lemma {:induction false} TasksFail(t: Tables, s: seq<TaskRecord>, k: nat)
    requires k <= |s| && RestoreTasks(t, s[..k]).None?
    ensures RestoreTasks(t, s).None?
    decreases |s| - k
  {
    if k == |s| {
      assert s[..k] == s;
    } else {
      assert s[..k + 1][..k] == s[..k];
      TasksFail(t, s, k + 1);
    }
  }

  lemma {:induction false} DocumentsFail(t: Tables, s: seq<ArtifactDocument>, k: nat)
    requires k <= |s| && RestoreDocuments(t, s[..k]).None?
    ensures RestoreDocuments(t, s).None?
    decreases |s| - k
  {
    if k == |s| {
      assert s[..k] == s;
    } else {
      assert s[..k + 1][..k] == s[..k];
      DocumentsFail(t, s, k + 1);
    }
  }

  lemma {:induction false} MessagesFail(t: Tables, s: seq<MessageRecord>, k: nat)
    requires k <= |s| && RestoreMessages(t, s[..k]).None?
    ensures RestoreMessages(t, s).None?
    decreases |s| - k
  {
    if k == |s| {
      assert s[..k] == s;
    } else {
      assert s[..k + 1][..k] == s[..k];
      MessagesFail(t, s, k + 1);
    }
  }

  lemma {:induction false} SectionsFail(entries: map<DocId, SectionEntry>, docs: map<DocId, Fields>, taskId: string,
                                        revision: string, s: seq<Section>, k: nat)
    requires k <= |s| && RestoreSections(entries, docs, taskId, revision, s[..k]).None?
    ensures RestoreSections(entries, docs, taskId, revision, s).None?
    decreases |s| - k
  {
    if k == |s| {
      assert s[..k] == s;
    } else {
      assert s[..k + 1][..k] == s[..k];
      SectionsFail(entries, docs, taskId, revision, s, k + 1);
    }
  }

  lemma {:induction false} ChunksFail(entries: map<DocId, SectionEntry>, docs: map<DocId, Fields>, taskId: string,
                                      revision: string, s: Section, k: nat)
    requires k <= |s.chunks| && RestoreChunks(entries, docs, taskId, revision, s, k).None?
    ensures RestoreChunks(entries, docs, taskId, revision, s, |s.chunks|).None?
    decreases |s.chunks| - k
  {
    if k < |s.chunks| {
      ChunksFail(entries, docs, taskId, revision, s, k + 1);
    }
  }

  lemma NothingRestored(entries: map<DocId, SectionEntry>, docs: map<DocId, Fields>, taskId: string, revision: string)
    ensures RestoreSections(entries, docs, taskId, revision, []) == Some(entries)
  {
  }

  lemma SectionsRestoreStep(entries: map<DocId, SectionEntry>, docs: map<DocId, Fields>, taskId: string, revision: string,
                            front: seq<Section>, s: Section)
    ensures var before := RestoreSections(entries, docs, taskId, revision, front);
            RestoreSections(entries, docs, taskId, revision, front + [s]) ==
            if before.None? || s.chunks == [] || !IsSectionId(s.sectionId) || !IsNonNegativeSafe(s.ordinal) then None
            else RestoreChunks(before.value, docs, taskId, revision, s, |s.chunks|)
  {
    assert (front + [s])[..|front|] == front;
  }

  /** The entry a section's document id leads to. */
  lemma ChunkStored(t: Tables, m: Model, id: string, i: nat, j: nat)
    requires Agree(t, m) && id in m.documents
    requires i < |m.documents[id].sections| && j < |m.documents[id].sections[i].chunks|
    ensures var d, docId := m.documents[id], SectionDoc(id, m.documents[id].sections[i].ordinal, j);
            docId in t.sections && t.sections[docId] == ChunkEntry(id, d.revision, d.sections[i], j)
  {
    hide ByTaskMatches, EntriesOf, Chars, EntryIn, IsUuidV7, IsRevision, SectionsOk, DocsMatch;
    var d, docId := m.documents[id], SectionDoc(id, m.documents[id].sections[i].ordinal, j);
    EntryPresent(id, d.revision, d.sections, i, j);
    assert Find(t.sections, docId) == EntryAt(m.documents, docId);
  }

  lemma EmptyLists()
    ensures ListsTasks([]) && ListsDocuments([]) && ListsMessages([])
  {
  }

  lemma TaskListed(s: seq<TaskRecord>, record: TaskRecord)
    requires ListsTasks(s) && record.id !in TasksIn(s)
    ensures ListsTasks(s + [record]) && TasksIn(s + [record]) == TasksIn(s)[record.id := record]
  {
    assert (s + [record])[..|s|] == s;
  }

  lemma DocumentListedToo(s: seq<ArtifactDocument>, d: ArtifactDocument)
    requires ListsDocuments(s) && d.taskId !in DocumentsIn(s)
    ensures ListsDocuments(s + [d]) && DocumentsIn(s + [d]) == DocumentsIn(s)[d.taskId := d.document]
  {
    assert (s + [d])[..|s|] == s;
  }

  lemma MessageListed(s: seq<MessageRecord>, record: MessageRecord)
    requires ListsMessages(s) && record.id !in MessagesIn(s)
    ensures ListsMessages(s + [record]) && MessagesIn(s + [record]) == MessagesIn(s)[record.id := record]
  {
    assert (s + [record])[..|s|] == s;
  }

  /** Records are stored under their own ids, and the listed documents are the known ones. */
  lemma RecordsNamed(t: Tables, m: Model)
    requires Agree(t, m)
    ensures t.tasks == m.tasks && forall k :: k in m.tasks ==> m.tasks[k].id == k
    ensures t.messages == m.messages && forall k :: k in m.messages ==> m.messages[k].id == k
    ensures t.entries.Keys == m.documents.Keys
    ensures t.skipped == m.messagesSkipped
  {
    hide DocsMatch, EntriesMatch, ByTaskMatches, Chars, EntryOf, AcceptsTask, AcceptsMessage, DocumentsOk;
  }

  /* ----- fromArtifact ----- */

  /** The header checks, in the order they are made. */
  function HeaderError(a: Artifact, ownerId: string, generation: int): Option<FormatError> {
    if a.format != INDEX_FORMAT then Some(Malformed)
    else if a.indexFormatVersion != INDEX_FORMAT_VERSION then Some(FormatVersion)
    else if a.tokenizerFingerprint != TOKENIZER_FINGERPRINT then Some(Fingerprint)
    else if a.ownerId != ownerId then Some(Owner)
    else if a.generation != generation then Some(Generation)
    else if !(-MAX_SAFE_INTEGER <= a.appliedThrough <= MAX_SAFE_INTEGER) then Some(Malformed)
    else None
  }

  function LoadError(a: Artifact, ownerId: string, generation: int): Option<FormatError> {
    var header := HeaderError(a, ownerId, generation);
    if header.Some? then header
    else if Restored(a).None? || !CountsMatch(Restored(a).value) then Some(Malformed)
    else None
  }

  /** An artifact that describes a sound index loads, and every table comes back as it was. */
  lemma ArtifactRoundTrip(t: Tables, m: Model, a: Artifact, ownerId: string, generation: int)
    requires Agree(t, m) && Describes(a, m, t.docs) && HeaderError(a, ownerId, generation) == None
    ensures LoadError(a, ownerId, generation) == None && Restored(a) == Some(t)
  {
    RestoredRoundTrip(t, m, a);
    AgreeCounts(t, m);
  }
}
