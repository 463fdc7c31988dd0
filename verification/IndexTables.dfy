/**
 * The redundant tables of SearchIndex as functions of its records: section entries, MiniSearch
 * documents, the reverse message index and the document metadata (packages/search/src/search-index.ts).
 */
module IndexTables {
  import opened Wrappers
  import opened Utf16
  import opened SearchRecords
  import opened IndexModel
  import opened DocIds

  datatype SectionEntry = SectionEntry(
    docId: DocId, taskId: string, sectionId: string, ordinal: nat, heading: Option<Text>, chunk: nat,
    start: nat, text: Text, more: bool, revision: string)

  datatype SectionMeta = SectionMeta(
    sectionId: string, ordinal: nat, heading: Option<Text>, cut: bool, docIds: seq<DocId>, chars: nat)

  datatype DocumentEntry = DocumentEntry(
    taskId: string, revision: string, truncated: bool, sections: seq<SectionMeta>, chars: nat)

  datatype Fields = TitleFields(title: Text) | SectionFields(heading: Text, body: Text) | ChatFields(chat: Text)

  function Find<K(==), V>(m: map<K, V>, k: K): Option<V> {
    if k in m then Some(m[k]) else None
  }

  function ChunkEntry(taskId: string, revision: string, s: Section, chunk: nat): SectionEntry
    requires chunk < |s.chunks|
  {
    SectionEntry(SectionDoc(taskId, s.ordinal, chunk), taskId, s.sectionId, s.ordinal, s.heading, chunk,
                 s.chunks[chunk].start, s.chunks[chunk].text, chunk < |s.chunks| - 1 || s.cut, revision)
  }

  /** The entry of a chunk, found through the sections that list it. */
  function EntryIn(taskId: string, revision: string, sections: seq<Section>, ordinal: nat, chunk: nat): Option<SectionEntry> {
    if sections == [] then None
    else
      var last := sections[|sections| - 1];
      if last.ordinal == ordinal then
        if chunk < |last.chunks| then Some(ChunkEntry(taskId, revision, last, chunk)) else None
      else
        EntryIn(taskId, revision, sections[..|sections| - 1], ordinal, chunk)
  }

  function EntryAt(documents: map<string, Document>, id: DocId): Option<SectionEntry> {
    if id.SectionDoc? && id.taskId in documents then
      var d := documents[id.taskId];
      EntryIn(id.taskId, d.revision, d.sections, id.ordinal, id.chunk)
    else None
  }

  function HeadingText(heading: Option<Text>): Text {
    if heading.Some? then heading.value else []
  }

  function EntryFields(entry: Option<SectionEntry>): Option<Fields> {
    if entry.Some? then Some(SectionFields(HeadingText(entry.value.heading), entry.value.text)) else None
  }

  /** What MiniSearch must hold under an id. */
  function FieldsAt(m: Model, id: DocId): Option<Fields> {
    match id
    case TitleDoc(t) => if t in m.tasks then Some(TitleFields(m.tasks[t].title)) else None
    case SectionDoc(_, _, _) => EntryFields(EntryAt(m.documents, id))
    case MessageDoc(x) => if x in m.messages then Some(ChatFields(m.messages[x].text)) else None
  }

  ghost predicate EntriesMatch(entries: map<DocId, SectionEntry>, documents: map<string, Document>) {
    forall id :: Find(entries, id) == EntryAt(documents, id)
  }

  ghost predicate DocsMatch(docs: map<DocId, Fields>, m: Model) {
    forall id :: Find(docs, id) == FieldsAt(m, id)
  }

  ghost function MessagesOf(messages: map<string, MessageRecord>, taskId: string): set<string> {
    set m | m in messages && messages[m].taskId == taskId
  }

  /** messagesByTask is the exact inverse of the message records; no task has an empty set. */
  ghost predicate ByTaskMatches(byTask: map<string, set<string>>, messages: map<string, MessageRecord>) {
    forall t :: MessagesOf(messages, t) == (if t in byTask then byTask[t] else {}) && (t in byTask ==> byTask[t] != {})
  }

  function ChunkIds(taskId: string, s: Section, n: nat): seq<DocId> {
    seq(n, (j: nat) => SectionDoc(taskId, s.ordinal, j))
  }

  function MetaOf(taskId: string, s: Section): SectionMeta {
    SectionMeta(s.sectionId, s.ordinal, s.heading, s.cut, ChunkIds(taskId, s, |s.chunks|), s.Chars())
  }

  function MetasOf(taskId: string, sections: seq<Section>): seq<SectionMeta> {
    seq(|sections|, (i: nat) requires i < |sections| => MetaOf(taskId, sections[i]))
  }

  function EntryOf(taskId: string, d: Document): DocumentEntry {
    DocumentEntry(taskId, d.revision, d.truncated, MetasOf(taskId, d.sections), SectionsChars(d.sections))
  }

  function EntriesOf(documents: map<string, Document>): map<string, DocumentEntry> {
    map t | t in documents :: EntryOf(t, documents[t])
  }

  /* ----- Sections found by ordinal ----- */

  lemma {:induction false} EntryInAbsent(taskId: string, revision: string, sections: seq<Section>, ordinal: nat, chunk: nat)
    requires forall i :: 0 <= i < |sections| ==> sections[i].ordinal != ordinal
    ensures EntryIn(taskId, revision, sections, ordinal, chunk) == None
  {
    if sections != [] {
      EntryInAbsent(taskId, revision, sections[..|sections| - 1], ordinal, chunk);
    }
  }

  lemma {:induction false} EntryInDropFirst(taskId: string, revision: string, sections: seq<Section>, ordinal: nat, chunk: nat)
    requires sections != [] && SectionsOk(sections)
    ensures EntryIn(taskId, revision, sections[1..], ordinal, chunk)
         == if ordinal == sections[0].ordinal then None else EntryIn(taskId, revision, sections, ordinal, chunk)
    ensures EntryIn(taskId, revision, sections, sections[0].ordinal, chunk)
         == if chunk < |sections[0].chunks| then Some(ChunkEntry(taskId, revision, sections[0], chunk)) else None
  {
    var n := |sections| - 1;
    if n == 0 {
      EntryInAbsent(taskId, revision, sections[..0], ordinal, chunk);
    } else {
      assert sections[1..][..n - 1] == sections[..n][1..];
      EntryInDropFirst(taskId, revision, sections[..n], ordinal, chunk);
    }
  }

  lemma EntryInPush(taskId: string, revision: string, sections: seq<Section>, s: Section, ordinal: nat, chunk: nat)
    ensures EntryIn(taskId, revision, sections + [s], ordinal, chunk)
         == if ordinal == s.ordinal
            then (if chunk < |s.chunks| then Some(ChunkEntry(taskId, revision, s, chunk)) else None)
            else EntryIn(taskId, revision, sections, ordinal, chunk)
  {
    assert (sections + [s])[..|sections|] == sections;
  }

  lemma EntryInNew(taskId: string, revision: string, sections: seq<Section>, s: Section, chunk: nat)
    requires SectionsOk(sections + [s])
    ensures EntryIn(taskId, revision, sections, s.ordinal, chunk) == None
  {
    var all := sections + [s];
    assert all[|sections|] == s;
    assert forall i :: 0 <= i < |sections| ==> sections[i] == all[i];
    EntryInAbsent(taskId, revision, sections, s.ordinal, chunk);
  }

  /* ----- One change at a time ----- */

  lemma DocsPutTask(docs: map<DocId, Fields>, m: Model, record: TaskRecord)
    requires DocsMatch(docs, m)
    ensures TitleDoc(record.id) in docs <==> record.id in m.tasks
    ensures DocsMatch((docs - {TitleDoc(record.id)})[TitleDoc(record.id) := TitleFields(record.title)],
                      m.(tasks := m.tasks[record.id := record]))
  {
    assert Find(docs, TitleDoc(record.id)) == FieldsAt(m, TitleDoc(record.id));
    var docs', m' := (docs - {TitleDoc(record.id)})[TitleDoc(record.id) := TitleFields(record.title)], m.(tasks := m.tasks[record.id := record]);
    forall id
      ensures Find(docs', id) == FieldsAt(m', id)
    {
      assert Find(docs, id) == FieldsAt(m, id);
    }
  }

  lemma DocsDropTask(docs: map<DocId, Fields>, m: Model, t: string)
    requires DocsMatch(docs, m)
    ensures TitleDoc(t) in docs <==> t in m.tasks
    ensures DocsMatch(docs - {TitleDoc(t)}, m.(tasks := m.tasks - {t}))
  {
    assert Find(docs, TitleDoc(t)) == FieldsAt(m, TitleDoc(t));
    var docs', m' := docs - {TitleDoc(t)}, m.(tasks := m.tasks - {t});
    forall id
      ensures Find(docs', id) == FieldsAt(m', id)
    {
      assert Find(docs, id) == FieldsAt(m, id);
    }
  }

  lemma DocsPutMessage(docs: map<DocId, Fields>, m: Model, record: MessageRecord)
    requires DocsMatch(docs, m)
    ensures MessageDoc(record.id) in docs <==> record.id in m.messages
    ensures DocsMatch(docs[MessageDoc(record.id) := ChatFields(record.text)],
                      m.(messages := m.messages[record.id := record]))
  {
    assert Find(docs, MessageDoc(record.id)) == FieldsAt(m, MessageDoc(record.id));
    var docs', m' := docs[MessageDoc(record.id) := ChatFields(record.text)], m.(messages := m.messages[record.id := record]);
    forall id
      ensures Find(docs', id) == FieldsAt(m', id)
    {
      assert Find(docs, id) == FieldsAt(m, id);
    }
  }

  lemma DocsDropMessage(docs: map<DocId, Fields>, m: Model, x: string)
    requires DocsMatch(docs, m)
    ensures MessageDoc(x) in docs <==> x in m.messages
    ensures DocsMatch(docs - {MessageDoc(x)}, m.(messages := m.messages - {x}))
  {
    assert Find(docs, MessageDoc(x)) == FieldsAt(m, MessageDoc(x));
    var docs', m' := docs - {MessageDoc(x)}, m.(messages := m.messages - {x});
    forall id
      ensures Find(docs', id) == FieldsAt(m', id)
    {
      assert Find(docs, id) == FieldsAt(m, id);
    }
  }

  lemma SkippingKeepsTables(docs: map<DocId, Fields>, m: Model)
    requires DocsMatch(docs, m)
    ensures DocsMatch(docs, m.(messagesSkipped := true))
  {
    forall id
      ensures Find(docs, id) == FieldsAt(m.(messagesSkipped := true), id)
    {
      assert Find(docs, id) == FieldsAt(m, id);
    }
  }

  function ByTaskAdd(byTask: map<string, set<string>>, record: MessageRecord): map<string, set<string>> {
    byTask[record.taskId := (if record.taskId in byTask then byTask[record.taskId] else {}) + {record.id}]
  }

  function ByTaskDrop(byTask: map<string, set<string>>, record: MessageRecord): map<string, set<string>> {
    if record.taskId !in byTask then byTask
    else if byTask[record.taskId] - {record.id} == {} then byTask - {record.taskId}
    else byTask[record.taskId := byTask[record.taskId] - {record.id}]
  }

  lemma ByTaskAdded(byTask: map<string, set<string>>, messages: map<string, MessageRecord>, record: MessageRecord)
    requires ByTaskMatches(byTask, messages) && record.id !in messages
    ensures ByTaskMatches(ByTaskAdd(byTask, record), messages[record.id := record])
  {
    forall t
      ensures MessagesOf(messages[record.id := record], t)
           == MessagesOf(messages, t) + (if t == record.taskId then {record.id} else {})
    {
    }
  }

  lemma ByTaskDropped(byTask: map<string, set<string>>, messages: map<string, MessageRecord>, x: string)
    requires ByTaskMatches(byTask, messages) && x in messages && messages[x].id == x
    ensures ByTaskMatches(ByTaskDrop(byTask, messages[x]), messages - {x})
  {
    assert x in MessagesOf(messages, messages[x].taskId);
    forall t
      ensures MessagesOf(messages - {x}, t) == MessagesOf(messages, t) - (if t == messages[x].taskId then {x} else {})
    {
      assert MessagesOf(messages, t) == (if t in byTask then byTask[t] else {});
    }
  }

  /* ----- The chunks of one section, one by one ----- */

  /** The entry table when the first `j` chunks of `s` have been filled in, or drained, over `documents`. */
  ghost function HalfEntry(documents: map<string, Document>, t: string, revision: string, s: Section, j: nat, fill: bool,
                           id: DocId): Option<SectionEntry>
    requires j <= |s.chunks|
  {
    if id.SectionDoc? && id.taskId == t && id.ordinal == s.ordinal && id.chunk < j then
      if fill then Some(ChunkEntry(t, revision, s, id.chunk)) else None
    else
      EntryAt(documents, id)
  }

  ghost predicate HalfMatch(entries: map<DocId, SectionEntry>, docs: map<DocId, Fields>, m: Model,
                            t: string, revision: string, s: Section, j: nat, fill: bool)
    requires j <= |s.chunks|
  {
    && (forall id :: Find(entries, id) == HalfEntry(m.documents, t, revision, s, j, fill, id))
    && (forall id :: Find(docs, id) == if id.SectionDoc?
                                       then EntryFields(HalfEntry(m.documents, t, revision, s, j, fill, id))
                                       else FieldsAt(m, id))
  }

  lemma HalfStart(entries: map<DocId, SectionEntry>, docs: map<DocId, Fields>, m: Model,
                  t: string, revision: string, s: Section, fill: bool)
    requires EntriesMatch(entries, m.documents) && DocsMatch(docs, m)
    ensures HalfMatch(entries, docs, m, t, revision, s, 0, fill)
  {
  }

  lemma HalfFill(entries: map<DocId, SectionEntry>, docs: map<DocId, Fields>, m: Model,
                 t: string, revision: string, s: Section, j: nat)
    requires j < |s.chunks| && HalfMatch(entries, docs, m, t, revision, s, j, true)
    requires EntryAt(m.documents, SectionDoc(t, s.ordinal, j)) == None
    ensures SectionDoc(t, s.ordinal, j) !in docs
    ensures HalfMatch(entries[SectionDoc(t, s.ordinal, j) := ChunkEntry(t, revision, s, j)],
                      docs[SectionDoc(t, s.ordinal, j) := SectionFields(HeadingText(s.heading), s.chunks[j].text)],
                      m, t, revision, s, j + 1, true)
  {
    var id := SectionDoc(t, s.ordinal, j);
    assert Find(docs, id) == EntryFields(HalfEntry(m.documents, t, revision, s, j, true, id));
    hide EntryAt;
    var entries', docs' := entries[id := ChunkEntry(t, revision, s, j)], docs[id := SectionFields(HeadingText(s.heading), s.chunks[j].text)];
    forall x
      ensures Find(entries', x) == HalfEntry(m.documents, t, revision, s, j + 1, true, x)
      ensures Find(docs', x) == if x.SectionDoc?
                                then EntryFields(HalfEntry(m.documents, t, revision, s, j + 1, true, x))
                                else FieldsAt(m, x)
    {
      assert Find(entries, x) == HalfEntry(m.documents, t, revision, s, j, true, x);
      assert Find(docs, x) == if x.SectionDoc? then EntryFields(HalfEntry(m.documents, t, revision, s, j, true, x)) else FieldsAt(m, x);
    }
  }

  lemma HalfDrain(entries: map<DocId, SectionEntry>, docs: map<DocId, Fields>, m: Model,
                  t: string, revision: string, s: Section, j: nat)
    requires j < |s.chunks| && HalfMatch(entries, docs, m, t, revision, s, j, false)
    requires EntryAt(m.documents, SectionDoc(t, s.ordinal, j)) != None
    ensures SectionDoc(t, s.ordinal, j) in docs
    ensures HalfMatch(entries - {SectionDoc(t, s.ordinal, j)}, docs - {SectionDoc(t, s.ordinal, j)},
                      m, t, revision, s, j + 1, false)
  {
    var id := SectionDoc(t, s.ordinal, j);
    assert Find(docs, id) == EntryFields(HalfEntry(m.documents, t, revision, s, j, false, id));
    hide EntryAt;
    forall x
      ensures Find(entries - {id}, x) == HalfEntry(m.documents, t, revision, s, j + 1, false, x)
      ensures Find(docs - {id}, x) == if x.SectionDoc?
                                      then EntryFields(HalfEntry(m.documents, t, revision, s, j + 1, false, x))
                                      else FieldsAt(m, x)
    {
      assert Find(entries, x) == HalfEntry(m.documents, t, revision, s, j, false, x);
      assert Find(docs, x) == if x.SectionDoc? then EntryFields(HalfEntry(m.documents, t, revision, s, j, false, x)) else FieldsAt(m, x);
    }
  }

  /** The records while a document under construction, or demolition, holds the given sections. */
  function WithSections(m: Model, t: string, revision: string, sections: seq<Section>): Model {
    m.(documents := m.documents[t := Document(revision, false, sections)])
  }

  /** Section entries and MiniSearch documents agree with the records. */
  ghost predicate EntriesAgree(entries: map<DocId, SectionEntry>, docs: map<DocId, Fields>, m: Model) {
    EntriesMatch(entries, m.documents) && DocsMatch(docs, m)
  }

  /** Only what is stored in the documents' sections counts for the entry tables. */
  lemma SameEntries(entries: map<DocId, SectionEntry>, docs: map<DocId, Fields>, m: Model, n: Model)
    requires EntriesAgree(entries, docs, m)
    requires m.tasks == n.tasks && m.messages == n.messages
    requires forall id :: EntryAt(m.documents, id) == EntryAt(n.documents, id)
    ensures EntriesAgree(entries, docs, n)
  {
    forall id
      ensures Find(entries, id) == EntryAt(n.documents, id)
      ensures Find(docs, id) == FieldsAt(n, id)
    {
      assert Find(entries, id) == EntryAt(m.documents, id);
      assert Find(docs, id) == FieldsAt(m, id);
    }
  }

  lemma HalfFilled(entries: map<DocId, SectionEntry>, docs: map<DocId, Fields>, m: Model,
                   t: string, revision: string, sections: seq<Section>, s: Section)
    requires HalfMatch(entries, docs, WithSections(m, t, revision, sections), t, revision, s, |s.chunks|, true)
    requires SectionsOk(sections + [s])
    ensures EntriesAgree(entries, docs, WithSections(m, t, revision, sections + [s]))
  {
    var before, after := WithSections(m, t, revision, sections), WithSections(m, t, revision, sections + [s]);
    forall id
      ensures Find(entries, id) == EntryAt(after.documents, id)
      ensures Find(docs, id) == FieldsAt(after, id)
    {
      assert Find(entries, id) == HalfEntry(before.documents, t, revision, s, |s.chunks|, true, id);
      assert Find(docs, id) == if id.SectionDoc? then EntryFields(HalfEntry(before.documents, t, revision, s, |s.chunks|, true, id)) else FieldsAt(before, id);
      if id.SectionDoc? && id.taskId == t {
        EntryInPush(t, revision, sections, s, id.ordinal, id.chunk);
        EntryInNew(t, revision, sections, s, id.chunk);
      }
    }
  }

  lemma HalfDrained(entries: map<DocId, SectionEntry>, docs: map<DocId, Fields>, m: Model,
                    t: string, revision: string, sections: seq<Section>)
    requires sections != [] && SectionsOk(sections)
    requires HalfMatch(entries, docs, WithSections(m, t, revision, sections), t, revision, sections[0], |sections[0].chunks|, false)
    ensures EntriesAgree(entries, docs, WithSections(m, t, revision, sections[1..]))
  {
    var before, after, s := WithSections(m, t, revision, sections), WithSections(m, t, revision, sections[1..]), sections[0];
    forall id
      ensures Find(entries, id) == EntryAt(after.documents, id)
      ensures Find(docs, id) == FieldsAt(after, id)
    {
      assert Find(entries, id) == HalfEntry(before.documents, t, revision, s, |s.chunks|, false, id);
      assert Find(docs, id) == if id.SectionDoc? then EntryFields(HalfEntry(before.documents, t, revision, s, |s.chunks|, false, id)) else FieldsAt(before, id);
      if id.SectionDoc? && id.taskId == t {
        EntryInDropFirst(t, revision, sections, id.ordinal, id.chunk);
      }
    }
  }

  /* ----- All tables together ----- */

  /** The fields of a SearchIndex and the documents of its MiniSearch. */
  datatype Tables = Tables(
    tasks: map<string, TaskRecord>,
    entries: map<string, DocumentEntry>,
    sections: map<DocId, SectionEntry>,
    messages: map<string, MessageRecord>,
    byTask: map<string, set<string>>,
    chars: int,
    skipped: bool,
    docs: map<DocId, Fields>)

  /** Every table holds exactly what the records call for, and `chars` is their exact total. */
  ghost predicate Agree(t: Tables, m: Model) {
    RecordTablesAgree(t, m) && DocsMatch(t.docs, m)
  }

  /** Agreement of all tables but MiniSearch. */
  ghost predicate RecordTablesAgree(t: Tables, m: Model) {
    && m.Ok()
    && t.tasks == m.tasks
    && t.messages == m.messages
    && t.skipped == m.messagesSkipped
    && t.entries == EntriesOf(m.documents)
    && EntriesMatch(t.sections, m.documents)
    && ByTaskMatches(t.byTask, m.messages)
    && t.chars == Chars(m)
  }

  lemma RecordsAgree(t: Tables, m: Model)
    requires Agree(t, m)
    ensures t.tasks == m.tasks && t.messages == m.messages && t.skipped == m.messagesSkipped
  {
  }

  lemma TotalAgrees(t: Tables, m: Model)
    requires Agree(t, m)
    ensures t.chars == Chars(m)
  {
  }

  lemma ByTaskAgrees(t: Tables, m: Model, id: string)
    requires Agree(t, m)
    ensures MessagesOf(m.messages, id) == if id in t.byTask then t.byTask[id] else {}
  {
  }

  lemma EmptyAgrees()
    ensures Agree(Tables(map[], map[], map[], map[], map[], 0, false, map[]), EMPTY)
  {
  }

  /** The tables with a task record in place of the one of the same id. */
  function WithTask(t: Tables, record: TaskRecord): Tables {
    t.(tasks := t.tasks[record.id := record],
       chars := t.chars - (if record.id in t.tasks then |t.tasks[record.id].title| else 0) + |record.title|,
       docs := (t.docs - {TitleDoc(record.id)})[TitleDoc(record.id) := TitleFields(record.title)])
  }

  lemma TaskPut(t: Tables, m: Model, record: TaskRecord)
    requires Agree(t, m) && AcceptsTask(record)
    ensures TitleDoc(record.id) in t.docs <==> record.id in t.tasks
    ensures Agree(WithTask(t, record), m.(tasks := m.tasks[record.id := record]))
  {
    hide DocsMatch, RecordTablesAgree;
    RecordsAgree(t, m);
    DocsPutTask(t.docs, m, record);
    TaskTablesPut(t, m, record);
  }

  lemma TaskTablesPut(t: Tables, m: Model, record: TaskRecord)
    requires RecordTablesAgree(t, m) && AcceptsTask(record)
    ensures RecordTablesAgree(WithTask(t, record), m.(tasks := m.tasks[record.id := record]))
  {
    hide EntriesMatch, ByTaskMatches, EntriesOf, TasksOk, DocumentsOk, MessagesOk, TitleChars, AcceptsTask;
    TitleReplaced(m.tasks, record);
    TasksMayAdd(m.tasks, record);
  }

  lemma TaskDropped(t: Tables, m: Model, id: string)
    requires Agree(t, m) && id in t.tasks
    ensures TitleDoc(id) in t.docs
    ensures Agree(t.(tasks := t.tasks - {id}, chars := t.chars - |t.tasks[id].title|, docs := t.docs - {TitleDoc(id)}),
                  m.(tasks := m.tasks - {id}))
  {
    hide DocsMatch, EntriesMatch, ByTaskMatches, EntriesOf, TasksOk, DocumentsOk, MessagesOk, TitleChars;
    DocsDropTask(t.docs, m, id);
    TitleCharsRemove(m.tasks, id);
    RestrictingKeepsOk(m.(tasks := m.tasks - {id}), m);
  }

  lemma MessagePut(t: Tables, m: Model, record: MessageRecord)
    requires Agree(t, m) && AcceptsMessage(record) && record.id !in t.messages
    ensures MessageDoc(record.id) !in t.docs
    ensures Agree(t.(messages := t.messages[record.id := record],
                     byTask := ByTaskAdd(t.byTask, record),
                     chars := t.chars + |record.text|,
                     docs := t.docs[MessageDoc(record.id) := ChatFields(record.text)]),
                  m.(messages := m.messages[record.id := record]))
  {
    hide DocsMatch, EntriesMatch, ByTaskMatches, EntriesOf, TasksOk, DocumentsOk, MessagesOk, MessageChars;
    DocsPutMessage(t.docs, m, record);
    ByTaskAdded(t.byTask, m.messages, record);
    MessageAdded(m.messages, record);
    MessagesMayAdd(m.messages, record);
  }

  lemma MessageDropped(t: Tables, m: Model, id: string)
    requires Agree(t, m) && id in t.messages
    ensures MessageDoc(id) in t.docs
    ensures Agree(t.(messages := t.messages - {id},
                     byTask := ByTaskDrop(t.byTask, t.messages[id]),
                     chars := t.chars - |t.messages[id].text|,
                     docs := t.docs - {MessageDoc(id)}),
                  m.(messages := m.messages - {id}))
  {
    DocsDropMessage(t.docs, m, id);
    assert m.messages[id].id == id;
    ByTaskDropped(t.byTask, m.messages, id);
    MessageCharsRemove(m.messages, id);
    MessagesMayDrop(m.messages, id);
    hide DocsMatch, EntriesMatch, ByTaskMatches, EntriesOf, TasksOk, DocumentsOk, AcceptsMessage, MessageChars, ByTaskDrop;
  }

  lemma EntriesOfChange(documents: map<string, Document>, id: string, d: Document)
    ensures EntriesOf(documents - {id}) == EntriesOf(documents) - {id}
    ensures EntriesOf(documents[id := d]) == EntriesOf(documents)[id := EntryOf(id, d)]
    ensures id in documents ==> id in EntriesOf(documents) && EntriesOf(documents)[id] == EntryOf(id, documents[id])
  {
    hide EntryOf;
  }

  lemma NoSections(m: Model, id: string, revision: string, x: DocId)
    ensures EntryAt(WithSections(m, id, revision, []).documents, x) == EntryAt((m.(documents := m.documents - {id})).documents, x)
  {
  }

  lemma DocumentListed(t: Tables, m: Model, id: string)
    requires Agree(t, m)
    ensures id in t.entries <==> id in m.documents
    ensures id in m.documents ==>
              var d := m.documents[id];
              && t.entries[id] == EntryOf(id, d)
              && d.Ok()
              && EntriesAgree(t.sections, t.docs, WithSections(m, id, d.revision, d.sections))
  {
    hide EntryOf, ByTaskMatches, DocsMatch, EntriesMatch, EntryAt;
    if id in m.documents {
      var d := m.documents[id];
      forall x
        ensures EntryAt(WithSections(m, id, d.revision, d.sections).documents, x) == EntryAt(m.documents, x)
      {
        WholeSections(m, id, d, x);
        assert m.documents[id := d] == m.documents;
      }
      SameEntries(t.sections, t.docs, m, WithSections(m, id, d.revision, d.sections));
    }
  }

  /** A document not yet listed is one with no sections, as far as the entry tables go. */
  lemma DocumentUnlisted(t: Tables, m: Model, id: string, revision: string)
    requires Agree(t, m) && id !in m.documents
    ensures EntriesAgree(t.sections, t.docs, WithSections(m, id, revision, []))
  {
    hide EntriesOf, ByTaskMatches, DocsMatch, EntriesMatch, EntryAt;
    forall x
      ensures EntryAt(WithSections(m, id, revision, []).documents, x) == EntryAt(m.documents, x)
    {
      NoSections(m, id, revision, x);
      assert m.documents - {id} == m.documents;
    }
    SameEntries(t.sections, t.docs, m, WithSections(m, id, revision, []));
  }

  lemma DocumentDropped(t: Tables, m: Model, id: string, sections: map<DocId, SectionEntry>, docs: map<DocId, Fields>)
    requires Agree(t, m) && id in m.documents
    requires EntriesAgree(sections, docs, WithSections(m, id, m.documents[id].revision, []))
    ensures id in t.entries && t.entries[id] == EntryOf(id, m.documents[id])
    ensures Agree(t.(entries := t.entries - {id}, sections := sections, docs := docs, chars := t.chars - t.entries[id].chars),
                  m.(documents := m.documents - {id}))
  {
    hide DocsMatch, EntriesMatch, ByTaskMatches, EntriesOf, TasksOk, DocumentsOk, MessagesOk, DocumentChars, EntryAt;
    var open, closed := WithSections(m, id, m.documents[id].revision, []), m.(documents := m.documents - {id});
    forall x
      ensures EntryAt(open.documents, x) == EntryAt(closed.documents, x)
    {
      NoSections(m, id, m.documents[id].revision, x);
    }
    SameEntries(sections, docs, open, closed);
    EntriesOfChange(m.documents, id, m.documents[id]);
    DocumentCharsRemove(m.documents, id);
    RestrictingKeepsOk(closed, m);
  }

  lemma WholeSections(m: Model, id: string, d: Document, x: DocId)
    ensures EntryAt(WithSections(m, id, d.revision, d.sections).documents, x)
         == EntryAt((m.(documents := m.documents[id := d])).documents, x)
  {
  }

  lemma DocumentPut(t: Tables, m: Model, id: string, d: Document, sections: map<DocId, SectionEntry>, docs: map<DocId, Fields>)
    requires Agree(t, m) && id !in m.documents && IsUuidV7(id) && d.Ok()
    requires EntriesAgree(sections, docs, WithSections(m, id, d.revision, d.sections))
    ensures Agree(t.(entries := t.entries[id := EntryOf(id, d)], sections := sections, docs := docs,
                     chars := t.chars + SectionsChars(d.sections)),
                  m.(documents := m.documents[id := d]))
  {
    hide DocsMatch, EntriesMatch, ByTaskMatches, EntriesOf, EntryOf, TasksOk, DocumentsOk, MessagesOk, DocumentChars, EntryAt,
         IsUuidV7, SectionsOk, IsRevision;
    var open, closed := WithSections(m, id, d.revision, d.sections), m.(documents := m.documents[id := d]);
    forall x
      ensures EntryAt(open.documents, x) == EntryAt(closed.documents, x)
    {
      WholeSections(m, id, d, x);
    }
    SameEntries(sections, docs, open, closed);
    EntriesOfChange(m.documents, id, d);
    DocumentAdded(m.documents, id, d);
    DocumentsMayAdd(m.documents, id, d);
  }

  lemma OutsideIsRest(messages: map<string, MessageRecord>, taskId: string)
    ensures messages - MessagesOf(messages, taskId) == MessagesOutside(messages, taskId)
  {
  }

  lemma SkippedSet(t: Tables, m: Model)
    requires Agree(t, m)
    ensures Agree(t.(skipped := true), m.(messagesSkipped := true))
  {
    hide DocsMatch, EntriesMatch, ByTaskMatches, EntriesOf, TasksOk, DocumentsOk, MessagesOk;
    SkippingKeepsTables(t.docs, m);
  }

  lemma MetasPush(taskId: string, sections: seq<Section>, s: Section)
    ensures MetasOf(taskId, sections + [s]) == MetasOf(taskId, sections) + [MetaOf(taskId, s)]
    ensures SectionsChars(sections + [s]) == SectionsChars(sections) + s.Chars()
  {
    hide MetaOf;
    assert (sections + [s])[..|sections|] == sections;
  }

  lemma EntryIs(taskId: string, d: Document, entry: DocumentEntry)
    requires entry.taskId == taskId && entry.revision == d.revision && entry.truncated == d.truncated
    requires entry.sections == MetasOf(taskId, d.sections) && entry.chars == SectionsChars(d.sections)
    ensures entry == EntryOf(taskId, d)
  {
    hide MetasOf;
  }

  lemma SectionsOkPrefix(all: seq<Section>, done: seq<Section>, s: Section)
    requires SectionsOk(all) && done + [s] <= all
    ensures SectionsOk(done + [s])
  {
    SectionsOkFrom(all, |done| + 1);
    assert all[..|done| + 1] == done + [s];
  }

  /* ----- The loop of replaceDocument ----- */

  /** `done` are the sections indexed from the first `i` inputs; the rest is still to come. */
  ghost predicate Progress(whole: Indexed, done: seq<Section>, ordered: seq<SectionInput>, i: nat, used: nat, cap: int, limits: Limits)
    requires limits.Ok() && InputsOk(ordered) && i <= |ordered|
  {
    var rest := IndexSections(ordered[i..], used, cap, limits);
    && whole.sections == done + rest.sections && whole.truncated == rest.truncated
    && used == SectionsChars(done) && SectionsOk(whole.sections)
  }

  lemma ProgressStart(ordered: seq<SectionInput>, cap: int, limits: Limits)
    requires limits.Ok() && InputsOk(ordered) && Ascending(ordered)
    ensures Progress(IndexSections(ordered, 0, cap, limits), [], ordered, 0, 0, cap, limits)
  {
    hide IndexSections, SectionsOk;
    IndexedSectionsOk(ordered, 0, cap, limits);
    assert ordered[0..] == ordered;
  }

  lemma ProgressEnd(whole: Indexed, done: seq<Section>, ordered: seq<SectionInput>, used: nat, cap: int, limits: Limits)
    requires limits.Ok() && InputsOk(ordered)
    requires Progress(whole, done, ordered, |ordered|, used, cap, limits)
    ensures whole == Indexed(done, false) && used == SectionsChars(whole.sections)
  {
    hide SectionsOk;
  }

  lemma ProgressStop(whole: Indexed, done: seq<Section>, ordered: seq<SectionInput>, i: nat, used: nat, cap: int, limits: Limits)
    requires limits.Ok() && InputsOk(ordered) && i < |ordered|
    requires Progress(whole, done, ordered, i, used, cap, limits) && Budget(ordered[i..], used, cap, limits) < 0
    ensures whole == Indexed(done, true) && used == SectionsChars(whole.sections)
  {
    hide IndexSections, SectionsOk;
    IndexSectionsStop(ordered[i..], used, cap, limits);
  }

  lemma ProgressStep(whole: Indexed, done: seq<Section>, ordered: seq<SectionInput>, i: nat, used: nat, cap: int, limits: Limits,
                     s: Section)
    requires limits.Ok() && InputsOk(ordered) && i < |ordered|
    requires Progress(whole, done, ordered, i, used, cap, limits)
    requires var budget := Budget(ordered[i..], used, cap, limits);
             budget >= 0 && s == IndexSection(ordered[i], budget, limits)
    ensures SectionsOk(done + [s])
    ensures SectionsChars(done + [s]) == used + s.Chars()
    ensures s.cut ==> whole == Indexed(done + [s], true)
    ensures !s.cut ==> Progress(whole, done + [s], ordered, i + 1, used + s.Chars(), cap, limits)
  {
    hide IndexSections, SectionsOk, IndexSection;
    IndexSectionsStep(ordered[i..], used, cap, limits, s);
    assert ordered[i..][1..] == ordered[i + 1..];
    MetasPush("", done, s);
    var rest := if s.cut then [] else IndexSections(ordered[i + 1..], used + s.Chars(), cap, limits).sections;
    assert whole.sections == done + [s] + rest;
    SectionsOkPrefix(whole.sections, done, s);
  }
}
