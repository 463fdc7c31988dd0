/** packages/search/src/records.ts and limits.ts: what the index stores and its bounds. */
module SearchRecords {
  import opened Wrappers
  import opened Utf16
  import opened Chunking

  datatype TaskRecord = TaskRecord(
    id: string, title: Text, collection: string, parentId: Option<string>,
    archived: bool, updatedAt: int, version: int)

  datatype SectionInput = SectionInput(sectionId: string, ordinal: int, heading: Option<Text>, text: Text)

  datatype DocumentInput = DocumentInput(taskId: string, revision: string, sections: seq<SectionInput>)

  datatype MessageRecord = MessageRecord(
    id: string, taskId: string, conversationId: string, speaker: string, createdAt: int, text: Text)

  datatype Limits = Limits(
    maxCorpusChars: nat, maxDocumentChars: nat, maxSectionsPerDocument: nat, maxMessageChars: nat,
    maxTitleChars: nat, chunkChars: nat, chunkOverlapChars: nat)
  {
    predicate Ok() {
      ValidLimits(chunkChars, chunkOverlapChars)
    }
  }

  const MAX_SAFE_INTEGER := 9007199254740991

  predicate IsNonNegativeSafe(n: int) {
    0 <= n <= MAX_SAFE_INTEGER
  }

  predicate IsLowerHex(c: char) {
    '0' <= c <= '9' || 'a' <= c <= 'f'
  }

  /** A lower-case UUID of version 7 and the RFC 9562 variant. */
  predicate IsUuidV7(s: string) {
    && |s| == 36
    && (forall i :: 0 <= i < 36 ==> if i in {8, 13, 18, 23} then s[i] == '-' else IsLowerHex(s[i]))
    && s[14] == '7'
    && s[19] in {'8', '9', 'a', 'b'}
  }

  predicate IsNameChar(c: char) {
    'A' <= c <= 'Z' || 'a' <= c <= 'z' || '0' <= c <= '9' || c == '_' || c == '-'
  }

  predicate IsRevision(s: string) {
    1 <= |s| <= 128 && forall i :: 0 <= i < |s| ==> IsNameChar(s[i])
  }

  predicate IsSectionId(s: string) {
    1 <= |s| <= 256 && forall i :: 0 <= i < |s| ==> IsNameChar(s[i]) || s[i] == '.' || s[i] == ':'
  }

  predicate AcceptsTask(task: TaskRecord) {
    && IsUuidV7(task.id)
    && task.collection in {"now", "later", "unclassified"}
    && (task.parentId.Some? ==> IsUuidV7(task.parentId.value))
    && IsNonNegativeSafe(task.updatedAt)
    && IsNonNegativeSafe(task.version)
  }

  predicate AcceptsSection(section: SectionInput) {
    IsSectionId(section.sectionId) && IsNonNegativeSafe(section.ordinal)
  }

  predicate AcceptsDocument(document: DocumentInput) {
    && IsUuidV7(document.taskId)
    && IsRevision(document.revision)
    && (forall i :: 0 <= i < |document.sections| ==> AcceptsSection(document.sections[i]))
    && (forall i, j :: 0 <= i < j < |document.sections| ==>
          document.sections[i].ordinal != document.sections[j].ordinal)
  }

  predicate AcceptsMessage(message: MessageRecord) {
    && IsUuidV7(message.id)
    && IsUuidV7(message.taskId)
    && IsUuidV7(message.conversationId)
    && message.speaker in {"user", "simon"}
    && IsNonNegativeSafe(message.createdAt)
  }

  /** text.slice(0, max) */
  function Clip(text: Text, max: nat): (r: Text)
    ensures |r| <= max
  {
    if |text| > max then text[..max] else text
  }
}
