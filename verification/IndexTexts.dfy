/** packages/search/src/search-index.ts: the section entries and MiniSearch documents of an index, told one by one. */
module IndexTexts {
  import opened Wrappers
  import opened Utf16
  import opened SearchRecords
  import opened IndexModel
  import opened IndexTables
  import opened DocIds
  import opened Chunking

  /** Chunk `k` of section `i` of the task's document. */
  ghost predicate IsChunk(m: Model, taskId: string, i: int, k: int) {
    && taskId in m.documents && 0 <= i < |m.documents[taskId].sections|
    && 0 <= k < |m.documents[taskId].sections[i].chunks|
  }

  /** The entry of that chunk: what it belongs to, where it starts, its text, and whether more text follows. */
  ghost predicate IsEntryOf(m: Model, taskId: string, i: int, k: int, e: SectionEntry) {
    && IsChunk(m, taskId, i, k)
    && var s := m.documents[taskId].sections[i];
    && e.docId == SectionDoc(taskId, s.ordinal, k) && e.taskId == taskId && e.revision == m.documents[taskId].revision
    && e.sectionId == s.sectionId && e.ordinal == s.ordinal && e.heading == s.heading
    && e.chunk == k && e.start == s.chunks[k].start && e.text == s.chunks[k].text
    && (e.more <==> s.cut || k + 1 < |s.chunks|)
  }

  /** What MiniSearch is given for a title, for a message, or for that chunk. */
  ghost predicate IsTextOf(m: Model, id: DocId, f: Fields) {
    match id
    case TitleDoc(t) => t in m.tasks && f == TitleFields(m.tasks[t].title)
    case MessageDoc(x) => x in m.messages && f == ChatFields(m.messages[x].text)
    case SectionDoc(t, ordinal, k) =>
      exists i :: IsChunk(m, t, i, k) && m.documents[t].sections[i].ordinal == ordinal && f.SectionFields?
                  && f.body == m.documents[t].sections[i].chunks[k].text
                  && (if m.documents[t].sections[i].heading == None then f.heading == []
                      else m.documents[t].sections[i].heading == Some(f.heading))
  }

  lemma {:induction false} EntryInIs(taskId: string, revision: string, sections: seq<Section>, i: nat, chunk: nat)
    requires SectionsOk(sections) && i < |sections|
    ensures EntryIn(taskId, revision, sections, sections[i].ordinal, chunk) ==
            if chunk < |sections[i].chunks| then Some(ChunkEntry(taskId, revision, sections[i], chunk)) else None
    decreases |sections|
  {
    if i < |sections| - 1 {
      EntryInIs(taskId, revision, sections[..|sections| - 1], i, chunk);
    }
  }

  lemma EntryIsOf(m: Model, taskId: string, i: nat, k: nat, e: SectionEntry)
    requires IsChunk(m, taskId, i, k)
    ensures e == ChunkEntry(taskId, m.documents[taskId].revision, m.documents[taskId].sections[i], k)
            <==> IsEntryOf(m, taskId, i, k, e)
  {
  }

  /** The entry found under an id is that of its chunk. */
  lemma EntryAtMeans(m: Model, id: DocId, e: SectionEntry)
    requires m.Ok()
    ensures EntryAt(m.documents, id) == Some(e) <==> e.docId == id && exists taskId, i, k :: IsEntryOf(m, taskId, i, k, e)
  {
    hide EntryIn, ChunkEntry, IsRevision;
    if EntryAt(m.documents, id) == Some(e) {
      var d := m.documents[id.taskId];
      var i := FoundAt(id.taskId, d.revision, d.sections, id.ordinal, id.chunk);
      EntryInIs(id.taskId, d.revision, d.sections, i, id.chunk);
      EntryIsOf(m, id.taskId, i, id.chunk, e);
    }
    if e.docId == id && exists taskId, i, k :: IsEntryOf(m, taskId, i, k, e) {
      var taskId, i, k :| IsEntryOf(m, taskId, i, k, e);
      EntryInIs(taskId, m.documents[taskId].revision, m.documents[taskId].sections, i, k);
      EntryIsOf(m, taskId, i, k, e);
    }
  }

  lemma {:induction false} FoundAt(taskId: string, revision: string, sections: seq<Section>, ordinal: nat, chunk: nat) returns (i: nat)
    requires EntryIn(taskId, revision, sections, ordinal, chunk).Some?
    ensures i < |sections| && sections[i].ordinal == ordinal && chunk < |sections[i].chunks|
  {
    var n := |sections| - 1;
    if sections[n].ordinal == ordinal {
      i := n;
    } else {
      i := FoundAt(taskId, revision, sections[..n], ordinal, chunk);
    }
  }

  /** In an index whose tables agree with its records, the section entries are exactly those of its chunks. */
  lemma EntriesExactly(m: Model, entries: map<DocId, SectionEntry>, e: SectionEntry)
    requires m.Ok() && EntriesMatch(entries, m.documents)
    ensures e.docId in entries && entries[e.docId] == e <==> exists taskId, i, k :: IsEntryOf(m, taskId, i, k, e)
  {
    hide IsEntryOf, EntryAt;
    EntryAtMeans(m, e.docId, e);
    assert Find(entries, e.docId) == EntryAt(m.documents, e.docId);
  }

  /** MiniSearch holds exactly the titles, the messages, and of each chunk its heading, if any, and its text. */
  lemma TextsExactly(m: Model, docs: map<DocId, Fields>, id: DocId, f: Fields)
    requires m.Ok() && DocsMatch(docs, m)
    ensures id in docs && docs[id] == f <==> IsTextOf(m, id, f)
  {
    hide EntryAt, IsRevision;
    assert Find(docs, id) == FieldsAt(m, id);
    if id.SectionDoc? {
      if EntryAt(m.documents, id).Some? {
        var e := EntryAt(m.documents, id).value;
        EntryAtMeans(m, id, e);
        var taskId, i, k :| IsEntryOf(m, taskId, i, k, e);
        if IsTextOf(m, id, f) {
          var j :| IsChunk(m, id.taskId, j, id.chunk) && m.documents[id.taskId].sections[j].ordinal == id.ordinal && f.SectionFields?
                   && f.body == m.documents[id.taskId].sections[j].chunks[id.chunk].text
                   && (if m.documents[id.taskId].sections[j].heading == None then f.heading == []
                       else m.documents[id.taskId].sections[j].heading == Some(f.heading));
          assert i == j;
        }
      } else if IsTextOf(m, id, f) {
        var j :| IsChunk(m, id.taskId, j, id.chunk) && m.documents[id.taskId].sections[j].ordinal == id.ordinal;
        var e := ChunkEntry(id.taskId, m.documents[id.taskId].revision, m.documents[id.taskId].sections[j], id.chunk);
        EntryIsOf(m, id.taskId, j, id.chunk, e);
        EntryAtMeans(m, id, e);
        assert false;
      }
    }
  }
}
