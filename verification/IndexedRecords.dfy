/** packages/search/src/search-index.ts: what a change of a task, a document or a message leaves, record by record. */
module IndexedRecords {
  import opened Wrappers
  import opened Utf16
  import opened SearchRecords
  import opened IndexModel

  function Lookup<T>(records: map<string, T>, id: string): Option<T> {
    if id in records then Some(records[id]) else None
  }

  /** Nothing else than the record with this id is different. */
  ghost predicate SameBut<T>(after: map<string, T>, before: map<string, T>, id: string) {
    forall other :: other != id ==> Lookup(after, other) == Lookup(before, other)
  }

  /** The first `n` units of a text, or all of it. */
  ghost predicate IsFirst(part: Text, whole: Text, n: int) {
    part <= whole && (|part| == |whole| || |part| == n) && |part| <= n
  }

  lemma ClipIsFirst(text: Text, n: nat)
    ensures IsFirst(Clip(text, n), text, n)
  {
  }

  /** A task is stored with its title cut to size, and nothing else changes. */
  lemma TaskIsUpserted(m: Model, task: TaskRecord, config: Config)
    requires config.limits.Ok() && AcceptsTask(task)
    ensures var after := Apply(m, UpsertTask(task), config);
            && SameBut(after.tasks, m.tasks, task.id) && task.id in after.tasks
            && after.tasks[task.id] == task.(title := after.tasks[task.id].title)
            && IsFirst(after.tasks[task.id].title, task.title, config.limits.maxTitleChars)
            && after.documents == m.documents && after.messages == m.messages && after.messagesSkipped == m.messagesSkipped
  {
    ClipIsFirst(task.title, config.limits.maxTitleChars);
  }

  /** With a task go its document and its messages, and nothing else. */
  lemma TaskIsRemoved(m: Model, taskId: string, config: Config)
    requires config.limits.Ok()
    ensures var after := Apply(m, RemoveTask(taskId), config);
            && SameBut(after.tasks, m.tasks, taskId) && taskId !in after.tasks
            && SameBut(after.documents, m.documents, taskId) && taskId !in after.documents
            && (forall id :: id in m.messages && m.messages[id].taskId == taskId ==> id !in after.messages)
            && (forall id :: !(id in m.messages && m.messages[id].taskId == taskId) ==>
                               Lookup(after.messages, id) == Lookup(m.messages, id))
            && after.messagesSkipped == m.messagesSkipped
  {
  }

  lemma OneIsRemoved(m: Model, id: string, config: Config)
    requires config.limits.Ok()
    ensures var after := Apply(m, RemoveDocument(id), config);
            && SameBut(after.documents, m.documents, id) && id !in after.documents
            && after == m.(documents := after.documents)
    ensures var after := Apply(m, RemoveMessage(id), config);
            && SameBut(after.messages, m.messages, id) && id !in after.messages
            && after == m.(messages := after.messages)
  {
  }

  /** What the other records leave of the corpus. */
  ghost function RoomBeside(m: Model, id: string, limits: Limits): int {
    limits.maxCorpusChars - TitleChars(m.tasks) - DocumentChars(m.documents) - MessageChars(m.messages - {id})
  }

  /**
   * A message is stored exactly when chat is indexed and there is room: its text cut to its own limit and to
   * the room. Its predecessor is gone in any case, and the index says so when there was no room.
   */
  lemma MessageIsUpserted(m: Model, message: MessageRecord, config: Config)
    requires config.limits.Ok() && AcceptsMessage(message)
    ensures var after, room := Apply(m, UpsertMessage(message), config), RoomBeside(m, message.id, config.limits);
            && after == m.(messages := after.messages, messagesSkipped := after.messagesSkipped)
            && SameBut(after.messages, m.messages, message.id)
            && (message.id in after.messages <==> config.includeChat && room > 0)
            && (message.id in after.messages ==>
                  && after.messages[message.id] == message.(text := after.messages[message.id].text)
                  && IsFirst(after.messages[message.id].text, message.text,
                             if room < config.limits.maxMessageChars then room else config.limits.maxMessageChars))
            && (after.messagesSkipped <==> m.messagesSkipped || (config.includeChat && room <= 0))
  {
    var room := MessageRoom(m, message.id, config.limits);
    if room > 0 {
      ClipIsFirst(message.text, if room < config.limits.maxMessageChars then room else config.limits.maxMessageChars);
    }
  }
}
