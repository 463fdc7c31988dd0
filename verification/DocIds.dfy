/** packages/search/src/search-index.ts: the MiniSearch document ids and how they are taken apart. */
module DocIds {
  import opened Wrappers
  import opened Numbers
  import opened Decimal
  import opened SearchRecords

  datatype DocId =
    | TitleDoc(taskId: string)
    | SectionDoc(taskId: string, ordinal: nat, chunk: nat)
    | MessageDoc(messageId: string)

  datatype IndexDocKind = TitleKind | SectionKind | MessageKind

  /** The string the source uses as the MiniSearch id. */
  function IdText(id: DocId): string {
    match id
    case TitleDoc(taskId) => "t:" + taskId
    case SectionDoc(taskId, ordinal, chunk) => "s:" + taskId + ":" + Dec(ordinal) + ":" + Dec(chunk)
    case MessageDoc(messageId) => "m:" + messageId
  }

  function DocKind(s: string): Option<IndexDocKind> {
    if s == "" then None
    else if s[0] == 't' then Some(TitleKind)
    else if s[0] == 's' then Some(SectionKind)
    else if s[0] == 'm' then Some(MessageKind)
    else None
  }

  /** s.slice(2, 38) */
  function DocTaskId(s: string): string {
    if |s| <= 2 then "" else s[2..Min(38, |s|)]
  }

  /** s.slice(2) */
  function DocMessageId(s: string): string {
    if |s| <= 2 then "" else s[2..]
  }

  predicate Proper(id: DocId) {
    match id
    case TitleDoc(taskId) => IsUuidV7(taskId)
    case SectionDoc(taskId, _, _) => IsUuidV7(taskId)
    case MessageDoc(messageId) => IsUuidV7(messageId)
  }

  lemma UuidLength(s: string)
    requires IsUuidV7(s)
    ensures |s| == 36
  {
  }

  lemma SliceTaskId(head: string, taskId: string, rest: string)
    requires |head| == 2 && |taskId| == 36
    ensures (head + taskId + rest)[2..38] == taskId
  {
  }

  /** Kind, task id and message id are recovered from the id's text. */
  lemma DocIdParts(id: DocId)
    requires Proper(id)
    ensures id.TitleDoc? ==> DocKind(IdText(id)) == Some(TitleKind) && DocTaskId(IdText(id)) == id.taskId
    ensures id.SectionDoc? ==> DocKind(IdText(id)) == Some(SectionKind) && DocTaskId(IdText(id)) == id.taskId
    ensures id.MessageDoc? ==> DocKind(IdText(id)) == Some(MessageKind) && DocMessageId(IdText(id)) == id.messageId
  {
    hide IsUuidV7, Dec;
    match id {
      case TitleDoc(taskId) =>
        UuidLength(taskId);
        SliceTaskId("t:", taskId, "");
        assert IdText(id) == "t:" + taskId + "";
      case SectionDoc(taskId, ordinal, chunk) =>
        UuidLength(taskId);
        SliceTaskId("s:", taskId, ":" + Dec(ordinal) + ":" + Dec(chunk));
        assert IdText(id) == "s:" + taskId + (":" + Dec(ordinal) + ":" + Dec(chunk));
      case MessageDoc(messageId) =>
        assert IdText(id)[2..] == messageId;
    }
  }

  /** Two ids with the same text are the same id: a live entry is never mistaken for another. */
  lemma DocIdInjective(a: DocId, b: DocId)
    requires Proper(a) && Proper(b) && IdText(a) == IdText(b)
    ensures a == b
  {
    DocIdParts(a);
    DocIdParts(b);
    if a.SectionDoc? {
      var ra := Dec(a.ordinal) + (":" + Dec(a.chunk));
      var rb := Dec(b.ordinal) + (":" + Dec(b.chunk));
      assert IdText(a) == "s:" + a.taskId + ":" + ra;
      assert IdText(b) == "s:" + b.taskId + ":" + rb;
      assert ra == IdText(a)[39..] == IdText(b)[39..] == rb;
      DecPrefix(a.ordinal, b.ordinal, ":" + Dec(a.chunk), ":" + Dec(b.chunk));
      assert Dec(a.chunk) == (":" + Dec(a.chunk))[1..] == (":" + Dec(b.chunk))[1..] == Dec(b.chunk);
      DecInjective(a.chunk, b.chunk);
    }
  }
}
