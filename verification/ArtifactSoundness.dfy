/** packages/search/src/search-index.ts: what restoreRecords checks, and when its tables agree with the records. */
module ArtifactSoundness {
  import opened Wrappers
  import opened SearchRecords
  import opened IndexModel
  import opened IndexTables
  import opened ArtifactModel
  import opened DocIdNames = DocIds

  /** The records an artifact lists. */
  function RecordsIn(a: Artifact): Model {
    Model(TasksIn(a.tasks), DocumentsIn(a.documents), MessagesIn(a.messages), a.messagesSkipped)
  }

  /** Every document lists its sections by rising ordinals, which restoreRecords does not check. */
  predicate SectionsAscend(a: Artifact) {
    forall d, i, j :: d in a.documents && 0 <= i < j < |d.document.sections| ==>
                        d.document.sections[i].ordinal < d.document.sections[j].ordinal
  }

  /* ----- What restoring checks ----- */

  lemma {:induction false} TasksChecked(t: Tables, s: seq<TaskRecord>)
    requires RestoreTasks(t, s).Some? && t.tasks == map[]
    ensures var r := RestoreTasks(t, s).value;
            r == t.(tasks := r.tasks, chars := r.chars) && r.tasks == TasksIn(s)
    ensures ListsTasks(s)
    ensures forall k :: k in TasksIn(s) ==> TasksIn(s)[k].id == k && AcceptsTask(TasksIn(s)[k]) && TitleDoc(k) in t.docs
  {
    hide AcceptsTask;
    if s != [] {
      TasksChecked(t, s[..|s| - 1]);
    }
  }

  lemma {:induction false} MessagesChecked(t: Tables, s: seq<MessageRecord>)
    requires RestoreMessages(t, s).Some? && t.messages == map[]
    ensures var r := RestoreMessages(t, s).value;
            r == t.(messages := r.messages, byTask := r.byTask, chars := r.chars) && r.messages == MessagesIn(s)
    ensures ListsMessages(s)
    ensures forall k :: k in MessagesIn(s) ==>
                          MessagesIn(s)[k].id == k && AcceptsMessage(MessagesIn(s)[k]) && MessageDoc(k) in t.docs
  {
    hide AcceptsMessage, ByTaskAdd;
    if s != [] {
      MessagesChecked(t, s[..|s| - 1]);
    }
  }

  lemma {:induction false} ChunksChecked(entries: map<DocId, SectionEntry>, docs: map<DocId, Fields>, taskId: string,
                                         revision: string, s: Section, j: nat)
    requires j <= |s.chunks| && RestoreChunks(entries, docs, taskId, revision, s, j).Some?
    ensures forall k :: 0 <= k < j ==> SectionDoc(taskId, s.ordinal, k) in docs
  {
    if j > 0 {
      ChunksChecked(entries, docs, taskId, revision, s, j - 1);
    }
  }

  lemma {:induction false} SectionsChecked(entries: map<DocId, SectionEntry>, docs: map<DocId, Fields>, taskId: string,
                                           revision: string, listed: seq<Section>)
    requires RestoreSections(entries, docs, taskId, revision, listed).Some?
    ensures HoldsChunks(docs, taskId, listed) && forall i :: 0 <= i < |listed| ==> listed[i].Ok()
  {
    hide RestoreChunks, IsSectionId;
    if listed != [] {
      var front, last := listed[..|listed| - 1], listed[|listed| - 1];
      SectionsChecked(entries, docs, taskId, revision, front);
      ChunksChecked(RestoreSections(entries, docs, taskId, revision, front).value, docs, taskId, revision, last, |last.chunks|);
    }
  }

  /** A document as restoring leaves it: everything but the order of its sections is sound. */
  ghost predicate Checked(docs: map<DocId, Fields>, taskId: string, d: Document) {
    && IsUuidV7(taskId) && IsRevision(d.revision) && HoldsChunks(docs, taskId, d.sections)
    && forall i :: 0 <= i < |d.sections| ==> d.sections[i].Ok()
  }

  lemma {:induction false} DocumentsChecked(t: Tables, s: seq<ArtifactDocument>)
    requires RestoreDocuments(t, s).Some? && t.entries == map[]
    ensures var r := RestoreDocuments(t, s).value;
            r == t.(entries := r.entries, sections := r.sections, chars := r.chars) && r.entries == EntriesOf(DocumentsIn(s))
    ensures ListsDocuments(s)
    ensures forall k :: k in DocumentsIn(s) ==> Checked(t.docs, k, DocumentsIn(s)[k])
  {
    hide RestoreSections, IsUuidV7, IsRevision, HoldsChunks, EntryOf;
    if s != [] {
      var front, last := s[..|s| - 1], s[|s| - 1];
      DocumentsChecked(t, front);
      var before := RestoreDocuments(t, front).value;
      SectionsChecked(before.sections, before.docs, last.taskId, last.document.revision, last.document.sections);
      EntriesOfChange(DocumentsIn(front), last.taskId, last.document);
    }
  }

  lemma {:induction false} ListedSections(s: seq<ArtifactDocument>, k: string)
    requires k in DocumentsIn(s)
    ensures exists i :: 0 <= i < |s| && s[i].taskId == k && s[i].document == DocumentsIn(s)[k]
  {
    var n := |s| - 1;
    if s[n].taskId != k {
      ListedSections(s[..n], k);
      var i :| 0 <= i < n && s[..n][i].taskId == k && s[..n][i].document == DocumentsIn(s[..n])[k];
      assert s[i].taskId == k;
    }
  }

  lemma {:induction false} ListedDocument(s: seq<ArtifactDocument>, i: nat)
    requires ListsDocuments(s) && i < |s|
    ensures s[i].taskId in DocumentsIn(s) && DocumentsIn(s)[s[i].taskId] == s[i].document
  {
    var n := |s| - 1;
    if i < n {
      ListedDocument(s[..n], i);
    }
  }

  /* ----- Sound artifacts ----- */

  /** With sections in order, every table but MiniSearch is what the listed records call for. */
  lemma AscendingIsSound(a: Artifact)
    requires Restored(a).Some? && SectionsAscend(a)
    ensures RecordTablesAgree(Restored(a).value, RecordsIn(a)) && Restored(a).value.docs == a.miniSearch
  {
    hide RestoreTasks, RestoreDocuments, RestoreMessages, TasksIn, DocumentsIn, MessagesIn, ListsTasks, ListsDocuments,
         ListsMessages, RecordTablesAgree, HoldsChunks, AcceptsTask, AcceptsMessage, IsUuidV7, IsRevision, EntriesOf;
    var start, none := LoadedTables(a), EMPTY.(messagesSkipped := a.messagesSkipped);
    LoadedAgrees(a, none);
    var tasks := RestoreTasks(start, a.tasks).value;
    TasksChecked(start, a.tasks);
    TasksRestored(start, none, a.tasks);
    DocumentsChecked(tasks, a.documents);
    forall k | k in DocumentsIn(a.documents)
      ensures SectionsOk(DocumentsIn(a.documents)[k].sections)
    {
      assert Checked(tasks.docs, k, DocumentsIn(a.documents)[k]);
      ListedSections(a.documents, k);
      var i :| 0 <= i < |a.documents| && a.documents[i].taskId == k && a.documents[i].document == DocumentsIn(a.documents)[k];
      assert a.documents[i] in a.documents;
    }
    DocumentsRestored(tasks, none.(tasks := TasksIn(a.tasks)), a.documents);
    var documents := RestoreDocuments(tasks, a.documents).value;
    MessagesChecked(documents, a.messages);
    MessagesRestored(documents, none.(tasks := TasksIn(a.tasks)).(documents := DocumentsIn(a.documents)), a.messages);
  }

  /** Sections that give the same metadata have the same ordinals. */
  lemma SameMetas(taskId: string, x: seq<Section>, y: seq<Section>, i: nat)
    requires MetasOf(taskId, x) == MetasOf(taskId, y) && i < |x|
    ensures |x| == |y| && x[i].sectionId == y[i].sectionId && x[i].ordinal == y[i].ordinal && x[i].heading == y[i].heading
    ensures x[i].cut == y[i].cut && |x[i].chunks| == |y[i].chunks|
  {
    assert |MetasOf(taskId, x)| == |x| && |MetasOf(taskId, y)| == |y|;
    assert MetasOf(taskId, x)[i] == MetaOf(taskId, x[i]) && MetasOf(taskId, y)[i] == MetaOf(taskId, y[i]);
    assert |ChunkIds(taskId, x[i], |x[i].chunks|)| == |x[i].chunks|;
    assert |ChunkIds(taskId, y[i], |y[i].chunks|)| == |y[i].chunks|;
  }

  /** An index that agrees with some records lists their sections in order. */
  lemma SoundIsAscending(a: Artifact, m: Model)
    requires Restored(a).Some? && RecordTablesAgree(Restored(a).value, m)
    ensures SectionsAscend(a)
  {
    hide RestoreTasks, RestoreDocuments, RestoreMessages, TasksIn, DocumentsIn, MessagesIn, ListsTasks, ListsDocuments,
         ListsMessages, EntriesMatch, ByTaskMatches, Chars, AcceptsTask, AcceptsMessage, IsUuidV7, IsRevision, HoldsChunks;
    RestoredEntries(a);
    forall d, i, j | d in a.documents && 0 <= i < j < |d.document.sections|
      ensures d.document.sections[i].ordinal < d.document.sections[j].ordinal
    {
      var n :| 0 <= n < |a.documents| && a.documents[n] == d;
      ListedDocument(a.documents, n);
      var k := d.taskId;
      assert k in EntriesOf(m.documents);
      assert EntriesOf(DocumentsIn(a.documents))[k] == EntryOf(k, d.document) == EntryOf(k, m.documents[k]);
      SameMetas(k, d.document.sections, m.documents[k].sections, i);
      SameMetas(k, d.document.sections, m.documents[k].sections, j);
      assert SectionsOk(m.documents[k].sections);
    }
  }

  lemma RestoredEntries(a: Artifact)
    requires Restored(a).Some?
    ensures Restored(a).value.entries == EntriesOf(DocumentsIn(a.documents)) && ListsDocuments(a.documents)
  {
    hide RestoreTasks, RestoreDocuments, RestoreMessages, TasksIn, DocumentsIn, MessagesIn, ListsTasks, ListsDocuments,
         ListsMessages, EntriesOf, AcceptsTask, AcceptsMessage, IsUuidV7, IsRevision, HoldsChunks;
    TasksChecked(LoadedTables(a), a.tasks);
    var tasks := RestoreTasks(LoadedTables(a), a.tasks).value;
    DocumentsChecked(tasks, a.documents);
    MessagesChecked(RestoreDocuments(tasks, a.documents).value, a.messages);
  }

  /** The tables determine the records. */
  lemma RecordsUnique(t: Tables, m: Model, n: Model)
    requires RecordTablesAgree(t, m) && RecordTablesAgree(t, n)
    ensures m == n
  {
    hide ByTaskMatches, Chars, AcceptsTask, AcceptsMessage, IsUuidV7, IsRevision, SectionsOk, EntriesMatch;
    forall k | k in m.documents
      ensures k in n.documents && m.documents[k] == n.documents[k]
    {
      assert k in EntriesOf(m.documents) && EntryOf(k, m.documents[k]) == EntryOf(k, n.documents[k]);
      SameSections(t, m, n, k);
    }
    assert n.documents.Keys == EntriesOf(n.documents).Keys == m.documents.Keys;
    assert m.documents == n.documents;
  }

  lemma SameSections(t: Tables, m: Model, n: Model, k: string)
    requires RecordTablesAgree(t, m) && RecordTablesAgree(t, n) && k in m.documents && k in n.documents
    requires EntryOf(k, m.documents[k]) == EntryOf(k, n.documents[k])
    ensures m.documents[k].sections == n.documents[k].sections
  {
    hide ByTaskMatches, Chars, EntriesOf, AcceptsTask, AcceptsMessage, IsUuidV7, IsRevision, SectionsOk, MetasOf;
    var x, y := m.documents[k], n.documents[k];
    MetasLength(k, x.sections, y.sections);
    forall i | 0 <= i < |x.sections|
      ensures x.sections[i] == y.sections[i]
    {
      SameMetas(k, x.sections, y.sections, i);
      forall j | 0 <= j < |x.sections[i].chunks|
        ensures x.sections[i].chunks[j] == y.sections[i].chunks[j]
      {
        var id := SectionDoc(k, x.sections[i].ordinal, j);
        EntryPresent(k, x.revision, x.sections, i, j);
        EntryPresent(k, y.revision, y.sections, i, j);
        assert Find(t.sections, id) == EntryAt(m.documents, id) == EntryAt(n.documents, id);
      }
      assert x.sections[i].chunks == y.sections[i].chunks;
    }
  }

  lemma MetasLength(taskId: string, x: seq<Section>, y: seq<Section>)
    requires MetasOf(taskId, x) == MetasOf(taskId, y)
    ensures |x| == |y|
  {
    assert |MetasOf(taskId, x)| == |x| && |MetasOf(taskId, y)| == |y|;
  }
}
