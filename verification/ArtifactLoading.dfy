/** packages/search/src/search-index.ts: which artifacts fromArtifact loads, and which of them give a sound index. */
module ArtifactLoading {
  import opened Wrappers
  import opened SearchRecords
  import opened IndexModel
  import opened IndexTables
  import opened ArtifactModel
  import opened ArtifactSoundness
  import opened DocIdNames = DocIds

  /* ----- The ids of the listed records ----- */

  /** The first `n` sections have a chunk with the given ordinal and number. */
  ghost predicate HasChunk(sections: seq<Section>, n: nat, ordinal: nat, chunk: nat)
    requires n <= |sections|
  {
    exists i :: 0 <= i < n && sections[i].ordinal == ordinal && chunk < |sections[i].chunks|
  }

  ghost predicate SectionListed(s: seq<ArtifactDocument>, id: DocId) {
    && id.SectionDoc? && id.taskId in DocumentsIn(s)
    && var sections := DocumentsIn(s)[id.taskId].sections;
    HasChunk(sections, |sections|, id.ordinal, id.chunk)
  }

  /** The id of a listed task's title, of a chunk of a listed section, or of a listed message. */
  ghost predicate IsListed(a: Artifact, id: DocId) {
    match id
    case TitleDoc(t) => t in TasksIn(a.tasks)
    case SectionDoc(_, _, _) => SectionListed(a.documents, id)
    case MessageDoc(x) => x in MessagesIn(a.messages)
  }

  /* ----- The section entries that restoring makes ----- */

  lemma {:induction false} ChunkKeys(entries: map<DocId, SectionEntry>, docs: map<DocId, Fields>, taskId: string,
                                     revision: string, s: Section, j: nat, id: DocId)
    requires j <= |s.chunks| && RestoreChunks(entries, docs, taskId, revision, s, j).Some?
    ensures id in RestoreChunks(entries, docs, taskId, revision, s, j).value <==>
            id in entries || (id.SectionDoc? && id.taskId == taskId && id.ordinal == s.ordinal && id.chunk < j)
  {
    if j > 0 {
      ChunkKeys(entries, docs, taskId, revision, s, j - 1, id);
    }
  }

  lemma {:induction false} SectionKeys(entries: map<DocId, SectionEntry>, docs: map<DocId, Fields>, taskId: string,
                                       revision: string, listed: seq<Section>, id: DocId)
    requires RestoreSections(entries, docs, taskId, revision, listed).Some?
    ensures id in RestoreSections(entries, docs, taskId, revision, listed).value <==>
            id in entries || (id.SectionDoc? && id.taskId == taskId && HasChunk(listed, |listed|, id.ordinal, id.chunk))
  {
    hide RestoreChunks, IsSectionId;
    if listed != [] {
      var n := |listed| - 1;
      var front, last := listed[..n], listed[n];
      SectionKeys(entries, docs, taskId, revision, front, id);
      ChunkKeys(RestoreSections(entries, docs, taskId, revision, front).value, docs, taskId, revision, last, |last.chunks|, id);
      assert forall i :: 0 <= i < n ==> front[i] == listed[i];
    }
  }

  lemma {:induction false} DocumentKeys(t: Tables, s: seq<ArtifactDocument>, id: DocId)
    requires RestoreDocuments(t, s).Some? && t.sections == map[] && t.entries == map[]
    ensures id in RestoreDocuments(t, s).value.sections <==> SectionListed(s, id)
  {
    hide RestoreSections, IsUuidV7, IsRevision, EntryOf, HasChunk, Checked;
    if s != [] {
      var front, last := s[..|s| - 1], s[|s| - 1];
      DocumentKeys(t, front, id);
      DocumentsChecked(t, s);
      var before := RestoreDocuments(t, front).value;
      DocumentsChecked(t, front);
      SectionKeys(before.sections, before.docs, last.taskId, last.document.revision, last.document.sections, id);
    }
  }

  /** The records are valid and each is listed once; the order of sections does not matter. */
  ghost predicate RecordsAccepted(a: Artifact) {
    && ListsTasks(a.tasks) && ListsDocuments(a.documents) && ListsMessages(a.messages)
    && (forall k :: k in TasksIn(a.tasks) ==> TasksIn(a.tasks)[k].id == k && AcceptsTask(TasksIn(a.tasks)[k]))
    && (forall k :: k in DocumentsIn(a.documents) ==> DocumentAccepted(k, DocumentsIn(a.documents)[k]))
    && (forall k :: k in MessagesIn(a.messages) ==> MessagesIn(a.messages)[k].id == k && AcceptsMessage(MessagesIn(a.messages)[k]))
  }

  predicate DocumentAccepted(taskId: string, d: Document) {
    IsUuidV7(taskId) && IsRevision(d.revision) && forall i :: 0 <= i < |d.sections| ==> d.sections[i].Ok()
  }

  /** What restoring leaves, and what it has found in MiniSearch. */
  lemma RestoredIs(a: Artifact)
    requires Restored(a).Some?
    ensures var r := Restored(a).value;
            r.docs == a.miniSearch && r.tasks == TasksIn(a.tasks) && r.messages == MessagesIn(a.messages)
    ensures RestoreTasks(LoadedTables(a), a.tasks).Some?
    ensures var documents := RestoreDocuments(RestoreTasks(LoadedTables(a), a.tasks).value, a.documents);
            documents.Some? && Restored(a).value.sections == documents.value.sections
    ensures RecordsAccepted(a)
    ensures forall id :: IsListed(a, id) ==> id in a.miniSearch
  {
    hide RestoreTasks, RestoreDocuments, RestoreMessages, TasksIn, DocumentsIn, MessagesIn, ListsTasks, ListsDocuments,
         ListsMessages, AcceptsTask, AcceptsMessage, IsUuidV7, IsRevision, EntriesOf;
    TasksChecked(LoadedTables(a), a.tasks);
    var tasks := RestoreTasks(LoadedTables(a), a.tasks).value;
    DocumentsChecked(tasks, a.documents);
    MessagesChecked(RestoreDocuments(tasks, a.documents).value, a.messages);
  }

  /* ----- Which artifacts load ----- */

  lemma {:induction false} TasksLoad(t: Tables, s: seq<TaskRecord>)
    requires t.tasks == map[] && ListsTasks(s)
    requires forall k :: k in TasksIn(s) ==> TasksIn(s)[k].id == k && AcceptsTask(TasksIn(s)[k]) && TitleDoc(k) in t.docs
    ensures RestoreTasks(t, s).Some?
  {
    hide AcceptsTask;
    if s != [] {
      var front, last := s[..|s| - 1], s[|s| - 1];
      assert forall k :: k in TasksIn(front) ==> k in TasksIn(s) && TasksIn(s)[k] == TasksIn(front)[k];
      assert last.id in TasksIn(s) && TasksIn(s)[last.id] == last;
      TasksLoad(t, front);
      TasksChecked(t, front);
    }
  }

  lemma {:induction false} MessagesLoad(t: Tables, s: seq<MessageRecord>)
    requires t.messages == map[] && ListsMessages(s)
    requires forall k :: k in MessagesIn(s) ==>
                           MessagesIn(s)[k].id == k && AcceptsMessage(MessagesIn(s)[k]) && MessageDoc(k) in t.docs
    ensures RestoreMessages(t, s).Some?
  {
    hide AcceptsMessage, ByTaskAdd;
    if s != [] {
      var front, last := s[..|s| - 1], s[|s| - 1];
      assert forall k :: k in MessagesIn(front) ==> k in MessagesIn(s) && MessagesIn(s)[k] == MessagesIn(front)[k];
      assert last.id in MessagesIn(s) && MessagesIn(s)[last.id] == last;
      MessagesLoad(t, front);
      MessagesChecked(t, front);
    }
  }

  lemma {:induction false} ChunksLoad(entries: map<DocId, SectionEntry>, docs: map<DocId, Fields>, taskId: string,
                                      revision: string, s: Section, j: nat)
    requires j <= |s.chunks| && forall k :: 0 <= k < j ==> SectionDoc(taskId, s.ordinal, k) in docs
    ensures RestoreChunks(entries, docs, taskId, revision, s, j).Some?
  {
    if j > 0 {
      ChunksLoad(entries, docs, taskId, revision, s, j - 1);
    }
  }

  lemma {:induction false} SectionsLoad(entries: map<DocId, SectionEntry>, docs: map<DocId, Fields>, taskId: string,
                                        revision: string, sections: seq<Section>)
    requires HoldsChunks(docs, taskId, sections) && forall i :: 0 <= i < |sections| ==> sections[i].Ok()
    ensures RestoreSections(entries, docs, taskId, revision, sections).Some?
  {
    hide RestoreChunks, IsSectionId;
    if sections != [] {
      var front, last := sections[..|sections| - 1], sections[|sections| - 1];
      assert last.Ok() && forall i :: 0 <= i < |front| ==> front[i] == sections[i];
      SectionsLoad(entries, docs, taskId, revision, front);
      ChunksLoad(RestoreSections(entries, docs, taskId, revision, front).value, docs, taskId, revision, last, |last.chunks|);
    }
  }

  lemma {:induction false} DocumentsLoad(t: Tables, s: seq<ArtifactDocument>)
    requires t.entries == map[] && ListsDocuments(s)
    requires forall k :: k in DocumentsIn(s) ==>
                           DocumentAccepted(k, DocumentsIn(s)[k]) && HoldsChunks(t.docs, k, DocumentsIn(s)[k].sections)
    ensures RestoreDocuments(t, s).Some?
  {
    hide RestoreSections, IsUuidV7, IsRevision, EntryOf, HoldsChunks;
    if s != [] {
      var front, last := s[..|s| - 1], s[|s| - 1];
      assert forall k :: k in DocumentsIn(front) ==> k in DocumentsIn(s) && DocumentsIn(s)[k] == DocumentsIn(front)[k];
      assert last.taskId in DocumentsIn(s) && DocumentsIn(s)[last.taskId] == last.document;
      DocumentsLoad(t, front);
      DocumentsChecked(t, front);
      var before := RestoreDocuments(t, front).value;
      SectionsLoad(before.sections, before.docs, last.taskId, last.document.revision, last.document.sections);
      assert last.taskId !in before.entries;
    }
  }

  /** Accepted records restore when MiniSearch holds what they list. */
  lemma AcceptedRestores(a: Artifact)
    requires RecordsAccepted(a) && forall id :: IsListed(a, id) ==> id in a.miniSearch
    ensures Restored(a).Some?
  {
    hide RestoreTasks, RestoreDocuments, RestoreMessages, TasksIn, DocumentsIn, MessagesIn, ListsTasks, ListsDocuments,
         ListsMessages, AcceptsTask, AcceptsMessage, IsUuidV7, IsRevision, EntriesOf;
    var start := LoadedTables(a);
    assert forall k :: k in TasksIn(a.tasks) ==> IsListed(a, TitleDoc(k));
    assert forall k :: k in MessagesIn(a.messages) ==> IsListed(a, MessageDoc(k));
    TasksLoad(start, a.tasks);
    TasksChecked(start, a.tasks);
    var tasks := RestoreTasks(start, a.tasks).value;
    forall k | k in DocumentsIn(a.documents)
      ensures HoldsChunks(tasks.docs, k, DocumentsIn(a.documents)[k].sections)
    {
      ListedHolds(a, k);
    }
    DocumentsLoad(tasks, a.documents);
    DocumentsChecked(tasks, a.documents);
    MessagesLoad(RestoreDocuments(tasks, a.documents).value, a.messages);
  }

  lemma ListedHolds(a: Artifact, k: string)
    requires k in DocumentsIn(a.documents) && forall id :: IsListed(a, id) ==> id in a.miniSearch
    ensures HoldsChunks(a.miniSearch, k, DocumentsIn(a.documents)[k].sections)
  {
    hide DocumentsIn;
    var sections := DocumentsIn(a.documents)[k].sections;
    forall i, j | 0 <= i < |sections| && 0 <= j < |sections[i].chunks|
      ensures SectionDoc(k, sections[i].ordinal, j) in a.miniSearch
    {
      assert IsListed(a, SectionDoc(k, sections[i].ordinal, j));
    }
  }

  /** A subset as large as the whole is the whole. */
  lemma SameSizeSame<T>(part: set<T>, whole: set<T>)
    requires part <= whole && |part| == |whole|
    ensures part == whole
  {
    assert |whole - part| == |whole| - |part|;
  }

  /** The counts agree exactly when MiniSearch holds no id but the listed ones. */
  lemma CountsMatchExactly(a: Artifact)
    requires Restored(a).Some?
    ensures CountsMatch(Restored(a).value) <==> forall id :: id in a.miniSearch <==> IsListed(a, id)
  {
    hide Restored, RestoreTasks, RestoreDocuments, RecordsAccepted, TitleIds, MessageIds, SectionListed;
    RestoredIs(a);
    var m, r := RecordsIn(a), Restored(a).value;
    TitleAndMessageIds(m);
    var listed := TitleIds(m) + r.sections.Keys + MessageIds(m);
    forall id
      ensures id in listed <==> IsListed(a, id)
      ensures id in r.sections ==> id !in TitleIds(m) && id !in MessageIds(m)
    {
      IdIsListed(a, id);
    }
    DisjointSizes(listed, TitleIds(m), r.sections.Keys, MessageIds(m));
    assert listed <= a.miniSearch.Keys;
    assert |r.docs| == |a.miniSearch.Keys| && |r.sections| == |r.sections.Keys|;
    if CountsMatch(r) {
      SameSizeSame(listed, a.miniSearch.Keys);
    }
    if forall id :: id in a.miniSearch <==> IsListed(a, id) {
      assert listed == a.miniSearch.Keys;
    }
  }

  lemma IdIsListed(a: Artifact, id: DocId)
    requires Restored(a).Some?
    ensures IsListed(a, id) <==> id in TitleIds(RecordsIn(a)) || id in Restored(a).value.sections || id in MessageIds(RecordsIn(a))
    ensures id in Restored(a).value.sections ==> id.SectionDoc?
    ensures id in TitleIds(RecordsIn(a)) ==> id.TitleDoc?
    ensures id in MessageIds(RecordsIn(a)) ==> id.MessageDoc?
  {
    hide Restored, RestoreTasks, RestoreDocuments, RecordsAccepted, HasChunk, TasksIn, MessagesIn, DocumentsIn;
    RestoredIs(a);
    var tasks := RestoreTasks(LoadedTables(a), a.tasks).value;
    TasksChecked(LoadedTables(a), a.tasks);
    DocumentKeys(tasks, a.documents, id);
    assert id.TitleDoc? ==> (id in TitleIds(RecordsIn(a)) <==> id.taskId in TasksIn(a.tasks));
    assert id.MessageDoc? ==> (id in MessageIds(RecordsIn(a)) <==> id.messageId in MessagesIn(a.messages));
  }

  /** Format, version, tokenizer, owner and generation are as expected, and what it was applied through is a safe integer. */
  predicate HeaderFits(a: Artifact, ownerId: string, generation: int) {
    && FormatFits(a) && a.ownerId == ownerId && a.generation == generation
    && -0x20_0000_0000_0000 < a.appliedThrough < 0x20_0000_0000_0000
  }

  predicate FormatFits(a: Artifact) {
    && a.format == "symplist.search-index" && a.indexFormatVersion == 1
    && a.tokenizerFingerprint == "symplist-tokenizer/1;nfkd;strip-marks;lower;fold-1;no-apostrophes;icu-word-en;max-term-64"
  }

  /** Why an artifact that is not loaded is refused: for the first field of its header that is wrong, or as malformed. */
  lemma RefusedFor(a: Artifact, ownerId: string, generation: int)
    requires LoadError(a, ownerId, generation) != None
    ensures LoadError(a, ownerId, generation) ==
            if a.format != "symplist.search-index" then Some(Malformed)
            else if a.indexFormatVersion != 1 then Some(FormatVersion)
            else if !FormatFits(a) then Some(Fingerprint)
            else if a.ownerId != ownerId then Some(Owner)
            else if a.generation != generation then Some(Generation)
            else Some(Malformed)
  {
    hide Restored, CountsMatch;
  }

  /**
   * An artifact loads exactly when its header is as expected, each record is valid and listed once, and the
   * ids in MiniSearch are those of the records: of titles, of chunks and of messages.
   */
  lemma LoadsExactly(a: Artifact, ownerId: string, generation: int)
    ensures LoadError(a, ownerId, generation) == None <==>
            && HeaderFits(a, ownerId, generation) && RecordsAccepted(a)
            && forall id :: id in a.miniSearch <==> IsListed(a, id)
  {
    hide Restored, RecordsAccepted, IsListed, CountsMatch;
    if LoadError(a, ownerId, generation) == None {
      RestoredIs(a);
      CountsMatchExactly(a);
    }
    if RecordsAccepted(a) && forall id :: id in a.miniSearch <==> IsListed(a, id) {
      AcceptedRestores(a);
      CountsMatchExactly(a);
    }
  }

  /* ----- Which loaded artifacts are sound ----- */

  /** MiniSearch holds exactly the ids the records call for. */
  ghost predicate IdsMatch(docs: map<DocId, Fields>, m: Model) {
    forall id :: id in docs <==> FieldsAt(m, id).Some?
  }

  /** Under each id that MiniSearch holds stands the text of the record with that id. */
  ghost predicate TextsMatch(docs: map<DocId, Fields>, m: Model) {
    forall id :: id in docs && FieldsAt(m, id).Some? ==> FieldsAt(m, id).value == docs[id]
  }

  /** With sections in order, the listed ids are those the records call for. */
  lemma ListedIsCalledFor(a: Artifact, id: DocId)
    requires Restored(a).Some? && SectionsAscend(a)
    ensures IsListed(a, id) <==> FieldsAt(RecordsIn(a), id).Some?
  {
    hide Restored, SectionsAscend, EntryAt, SectionListed, TasksIn, MessagesIn, DocumentsIn;
    AscendingIsSound(a);
    IdIsListed(a, id);
    if id.SectionDoc? {
      assert Find(Restored(a).value.sections, id) == EntryAt(RecordsIn(a).documents, id);
    }
  }

  /** A loaded artifact gives tables and ids that agree with some records exactly when sections are in order. */
  lemma LoadedIsSoundExactly(a: Artifact, ownerId: string, generation: int)
    requires LoadError(a, ownerId, generation) == None
    ensures Restored(a).Some?
    ensures (exists m :: RecordTablesAgree(Restored(a).value, m) && IdsMatch(a.miniSearch, m)) <==> SectionsAscend(a)
    ensures SectionsAscend(a) ==> RecordTablesAgree(Restored(a).value, RecordsIn(a)) && IdsMatch(a.miniSearch, RecordsIn(a))
  {
    hide Restored, RecordTablesAgree, SectionsAscend, RecordsAccepted, IsListed, FieldsAt;
    LoadsExactly(a, ownerId, generation);
    if m :| RecordTablesAgree(Restored(a).value, m) && IdsMatch(a.miniSearch, m) {
      SoundIsAscending(a, m);
    }
    if SectionsAscend(a) {
      AscendingIsSound(a);
      forall id
        ensures id in a.miniSearch <==> FieldsAt(RecordsIn(a), id).Some?
      {
        ListedIsCalledFor(a, id);
      }
    }
  }

  /** With the texts as well, every table is sound exactly when sections are in order and the texts are right. */
  lemma LoadedAgreesExactly(a: Artifact, ownerId: string, generation: int)
    requires LoadError(a, ownerId, generation) == None
    ensures Restored(a).Some?
    ensures (exists m :: Agree(Restored(a).value, m)) <==> SectionsAscend(a) && TextsMatch(a.miniSearch, RecordsIn(a))
  {
    hide Restored, RecordTablesAgree, SectionsAscend, FieldsAt;
    LoadedIsSoundExactly(a, ownerId, generation);
    RestoredDocs(a);
    if m :| Agree(Restored(a).value, m) {
      SoundIsAscending(a, m);
      RecordsUnique(Restored(a).value, m, RecordsIn(a));
      MatchIsBoth(a.miniSearch, m);
    }
    if SectionsAscend(a) && TextsMatch(a.miniSearch, RecordsIn(a)) {
      MatchIsBoth(a.miniSearch, RecordsIn(a));
      assert Agree(Restored(a).value, RecordsIn(a));
    }
  }

  lemma RestoredDocs(a: Artifact)
    requires Restored(a).Some?
    ensures Restored(a).value.docs == a.miniSearch
  {
    hide Restored;
    RestoredIs(a);
  }

  lemma MatchIsBoth(docs: map<DocId, Fields>, m: Model)
    ensures DocsMatch(docs, m) <==> IdsMatch(docs, m) && TextsMatch(docs, m)
  {
    hide FieldsAt;
    if DocsMatch(docs, m) {
      assert forall id :: Find(docs, id) == FieldsAt(m, id);
    }
  }

  /* ----- An unsound artifact loads ----- */

  /** An artifact of one document with two sections, and what MiniSearch must hold for it. */
  function TwoSections(
    ownerId: string, generation: int, taskId: string, revision: string, first: Section, second: Section): Artifact
  {
    var ids := (set j | 0 <= j < |first.chunks| :: SectionDoc(taskId, first.ordinal, j))
               + (set j | 0 <= j < |second.chunks| :: SectionDoc(taskId, second.ordinal, j));
    Artifact(INDEX_FORMAT, INDEX_FORMAT_VERSION, TOKENIZER_FINGERPRINT, ownerId, generation, 0, false, false,
             [], [ArtifactDocument(taskId, Document(revision, false, [first, second]))], [],
             map id | id in ids :: SectionFields([], []))
  }

  lemma TwoSectionsListed(a: Artifact, taskId: string, revision: string, first: Section, second: Section)
    requires a.documents == [ArtifactDocument(taskId, Document(revision, false, [first, second]))]
    ensures ListsDocuments(a.documents) && DocumentsIn(a.documents) == map[taskId := Document(revision, false, [first, second])]
    ensures forall id :: SectionListed(a.documents, id) <==>
              && id.SectionDoc? && id.taskId == taskId
              && ((id.ordinal == first.ordinal && id.chunk < |first.chunks|)
                  || (id.ordinal == second.ordinal && id.chunk < |second.chunks|))
  {
    assert a.documents[..0] == [] && DocumentsIn([]) == map[];
    var sections := [first, second];
    assert sections[0] == first && sections[1] == second;
  }

  lemma TwoSectionsAccepted(ownerId: string, generation: int, taskId: string, revision: string, first: Section, second: Section)
    requires IsUuidV7(taskId) && IsRevision(revision) && first.Ok() && second.Ok()
    ensures LoadError(TwoSections(ownerId, generation, taskId, revision, first, second), ownerId, generation) == None
  {
    hide IsUuidV7, IsRevision, IsSectionId, DocumentsIn, SectionListed, ListsDocuments;
    var a := TwoSections(ownerId, generation, taskId, revision, first, second);
    TwoSectionsListed(a, taskId, revision, first, second);
    EmptyLists();
    assert RecordsAccepted(a);
    assert forall id :: id in a.miniSearch <==> IsListed(a, id);
    LoadsExactly(a, ownerId, generation);
  }

  /** Sections that do not ascend load all the same, and no records agree with the tables. */
  lemma UnorderedLoads(ownerId: string, generation: int, taskId: string, revision: string, first: Section, second: Section)
    requires IsUuidV7(taskId) && IsRevision(revision) && first.Ok() && second.Ok() && second.ordinal <= first.ordinal
    ensures var a := TwoSections(ownerId, generation, taskId, revision, first, second);
            && LoadError(a, ownerId, generation) == None && Restored(a).Some?
            && forall m :: !RecordTablesAgree(Restored(a).value, m)
  {
    hide LoadError, Restored, RecordTablesAgree, IsUuidV7, IsRevision, IsSectionId;
    var a := TwoSections(ownerId, generation, taskId, revision, first, second);
    TwoSectionsAccepted(ownerId, generation, taskId, revision, first, second);
    LoadedIsSoundExactly(a, ownerId, generation);
    var sections := a.documents[0].document.sections;
    assert sections[0].ordinal >= sections[1].ordinal;
    forall m
      ensures !RecordTablesAgree(Restored(a).value, m)
    {
      if RecordTablesAgree(Restored(a).value, m) {
        SoundIsAscending(a, m);
      }
    }
  }
}
