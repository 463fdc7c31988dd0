/**
 * packages/search/src/view.ts on values: changes layered over a published index, and the proof that
 * what a query then sees is what applying the changes to the index itself would give.
 */
module OverlayModel {
  import Numbers
  import opened Utf16
  import opened SearchRecords
  import opened IndexModel

  datatype Overlay = Overlay(
    index: Model,
    shadowTasks: set<string>,
    deletedTasks: set<string>,
    shadowDocuments: set<string>,
    shadowMessages: set<string>)

  const NO_CHANGES := Overlay(EMPTY, {}, {}, {}, {})

  /**
   * SearchOverlayBuilder: the same mutation on the overlay index, with the base entries it hides. The shadow
   * sets have changed before the overlay index refuses anything.
   */
  ghost function OverlayApply(o: Overlay, mutation: Mutation, config: Config): Overlay
    requires config.limits.Ok()
  {
    var index := Attempt(o.index, mutation, config);
    match mutation
    case UpsertTask(task) =>
      o.(index := index, deletedTasks := o.deletedTasks - {task.id}, shadowTasks := o.shadowTasks + {task.id})
    case RemoveTask(t) =>
      o.(index := index, shadowTasks := o.shadowTasks + {t}, deletedTasks := o.deletedTasks + {t},
         shadowDocuments := o.shadowDocuments + {t})
    case ReplaceDocument(document) =>
      o.(index := index, shadowDocuments := o.shadowDocuments + {document.taskId})
    case RemoveDocument(t) =>
      o.(index := index, shadowDocuments := o.shadowDocuments + {t})
    case UpsertMessage(message) =>
      o.(index := index, shadowMessages := o.shadowMessages + {message.id})
    case RemoveMessage(m) =>
      o.(index := index, shadowMessages := o.shadowMessages + {m})
  }

  ghost function OverlayRun(mutations: seq<Mutation>, config: Config): Overlay
    requires config.limits.Ok()
  {
    if mutations == [] then NO_CHANGES
    else OverlayApply(OverlayRun(mutations[..|mutations| - 1], config), mutations[|mutations| - 1], config)
  }

  /* ----- What a view shows ----- */

  predicate TaskShown(o: Overlay, t: string) {
    t !in o.shadowTasks && t !in o.deletedTasks
  }

  predicate DocumentShown(o: Overlay, t: string) {
    t !in o.shadowDocuments && t !in o.deletedTasks
  }

  predicate MessageShown(base: Model, o: Overlay, m: string) {
    m in base.messages && m !in o.shadowMessages && base.messages[m].taskId !in o.deletedTasks
  }

  function BaseTasks(base: Model, o: Overlay): (r: map<string, TaskRecord>)
    ensures forall t :: t in r <==> t in base.tasks && TaskShown(o, t)
  {
    base.tasks - (o.shadowTasks + o.deletedTasks)
  }

  function BaseDocuments(base: Model, o: Overlay): (r: map<string, Document>)
    ensures forall t :: t in r <==> t in base.documents && DocumentShown(o, t)
  {
    base.documents - (o.shadowDocuments + o.deletedTasks)
  }

  function BaseMessages(base: Model, o: Overlay): map<string, MessageRecord> {
    map m | m in base.messages && MessageShown(base, o, m) :: base.messages[m]
  }

  function ViewTasks(base: Model, o: Overlay): map<string, TaskRecord> {
    BaseTasks(base, o) + o.index.tasks
  }

  function ViewDocuments(base: Model, o: Overlay): map<string, Document> {
    BaseDocuments(base, o) + o.index.documents
  }

  function ViewMessages(base: Model, o: Overlay): map<string, MessageRecord> {
    BaseMessages(base, o) + o.index.messages
  }

  /* ----- Conditions a caller can check ----- */

  /** The corpus limit changes nothing about this mutation. */
  ghost predicate HasRoom(m: Model, mutation: Mutation, config: Config)
    requires config.limits.Ok()
  {
    Accepts(mutation) ==>
    match mutation
    case ReplaceDocument(document) =>
      IndexDocument(document, DocumentCap(m, document.taskId, config.limits), config.limits)
      == IndexDocument(document, config.limits.maxDocumentChars, config.limits)
    case UpsertMessage(message) =>
      config.includeChat ==>
        && MessageRoom(m, message.id, config.limits) > 0
        && |Clip(message.text, config.limits.maxMessageChars)| <= MessageRoom(m, message.id, config.limits)
    case _ => true
  }

  ghost predicate NeverFull(base: Model, mutations: seq<Mutation>, config: Config)
    requires config.limits.Ok()
  {
    mutations == [] ||
    var n := |mutations| - 1;
    NeverFull(base, mutations[..n], config) && HasRoom(Run(base, mutations[..n], config), mutations[n], config)
  }

  datatype EntryKind = TitleOf | DocumentOf | MessageOf

  /** The mutation is about this entry. */
  predicate Touches(mutation: Mutation, kind: EntryKind, id: string) {
    match mutation
    case UpsertTask(task) => kind.TitleOf? && task.id == id
    case RemoveTask(t) => !kind.MessageOf? && t == id
    case ReplaceDocument(document) => kind.DocumentOf? && document.taskId == id
    case RemoveDocument(t) => kind.DocumentOf? && t == id
    case UpsertMessage(message) => kind.MessageOf? && message.id == id
    case RemoveMessage(m) => kind.MessageOf? && m == id
  }

  /** Some mutation was about this entry, accepted or refused. */
  predicate Tried(mutations: seq<Mutation>, kind: EntryKind, id: string) {
    exists i :: 0 <= i < |mutations| && Touches(mutations[i], kind, id)
  }

  /** Some accepted mutation was about this entry. */
  predicate Changed(mutations: seq<Mutation>, kind: EntryKind, id: string) {
    exists i :: 0 <= i < |mutations| && Accepts(mutations[i]) && Touches(mutations[i], kind, id)
  }

  predicate TaskRemoved(mutations: seq<Mutation>, t: string) {
    exists i :: 0 <= i < |mutations| && mutations[i] == RemoveTask(t)
  }

  /** The task was removed and upserted again afterwards, successfully or not, and not removed since. */
  predicate TaskRevived(mutations: seq<Mutation>, t: string) {
    mutations != [] &&
    var n := |mutations| - 1;
    match mutations[n]
    case UpsertTask(task) => if task.id == t then TaskRemoved(mutations[..n], t) else TaskRevived(mutations[..n], t)
    case RemoveTask(u) => u != t && TaskRevived(mutations[..n], t)
    case _ => TaskRevived(mutations[..n], t)
  }

  /** A published title or document that only refused mutations were about. */
  predicate EntryLost(base: Model, mutations: seq<Mutation>, kind: EntryKind, id: string) {
    && (if kind.TitleOf? then id in base.tasks else kind.DocumentOf? && id in base.documents)
    && Tried(mutations, kind, id) && !Changed(mutations, kind, id)
  }

  /** A published message that only refused mutations were about, and whose task was not removed. */
  predicate MessageLost(base: Model, mutations: seq<Mutation>, m: string) {
    && m in base.messages && Tried(mutations, MessageOf, m) && !Changed(mutations, MessageOf, m)
    && !TaskRemoved(mutations, base.messages[m].taskId)
  }

  /** A published message, untouched by the changes, whose task was removed and revived. */
  predicate MessageResurfaces(base: Model, mutations: seq<Mutation>, m: string) {
    m in base.messages && !Tried(mutations, MessageOf, m) && TaskRevived(mutations, base.messages[m].taskId)
  }

  /* ----- The corpus limit ----- */

  lemma SectionSandwich(section: SectionInput, low: nat, mid: nat, high: nat, limits: Limits)
    requires limits.Ok() && AcceptsSection(section) && low <= mid <= high
    requires IndexSection(section, low, limits) == IndexSection(section, high, limits)
    ensures IndexSection(section, mid, limits) == IndexSection(section, high, limits)
  {
    if |section.text| > high {
      IndexSectionChars(section, low, limits);
      IndexSectionChars(section, high, limits);
      assert low == high;
    }
  }

  lemma SameHead<T>(x: T, xs: seq<T>, y: T, ys: seq<T>)
    requires [x] + xs == [y] + ys
    ensures x == y && xs == ys
  {
    assert x == ([x] + xs)[0] == ([y] + ys)[0] == y;
    assert xs == ([x] + xs)[1..] == ([y] + ys)[1..] == ys;
  }

  lemma BudgetGrows(sections: seq<SectionInput>, used: nat, low: int, high: int, limits: Limits)
    requires sections != [] && low <= high
    ensures Budget(sections, used, low, limits) <= Budget(sections, used, high, limits)
  {
  }

  /** When the first section has room under the higher of two caps with the same outcome, it has under the lower. */
  lemma RoomUnderBoth(sections: seq<SectionInput>, used: nat, low: int, high: int, limits: Limits)
    requires limits.Ok() && InputsOk(sections) && sections != []
    requires IndexSections(sections, used, low, limits).sections == IndexSections(sections, used, high, limits).sections
    requires Budget(sections, used, high, limits) >= 0
    ensures Budget(sections, used, low, limits) >= 0
  {
    hide IndexSections, Budget, IndexSection;
    if Budget(sections, used, low, limits) < 0 {
      IndexSectionsStop(sections, used, low, limits);
    }
    var last := IndexSection(sections[0], Budget(sections, used, high, limits), limits);
    IndexSectionsStep(sections, used, high, limits, last);
  }

  /** The first section and what follows it are the same under both caps. */
  lemma SameUnderBoth(sections: seq<SectionInput>, used: nat, low: int, high: int, limits: Limits)
    requires limits.Ok() && InputsOk(sections) && sections != []
    requires IndexSections(sections, used, low, limits).sections == IndexSections(sections, used, high, limits).sections
    requires Budget(sections, used, low, limits) >= 0 && Budget(sections, used, high, limits) >= 0
    ensures var first := IndexSection(sections[0], Budget(sections, used, low, limits), limits);
            && first == IndexSection(sections[0], Budget(sections, used, high, limits), limits)
            && (!first.cut ==> IndexSections(sections[1..], used + first.Chars(), low, limits).sections ==
                               IndexSections(sections[1..], used + first.Chars(), high, limits).sections)
  {
    hide IndexSections, Budget, IndexSection;
    var first := IndexSection(sections[0], Budget(sections, used, low, limits), limits);
    var last := IndexSection(sections[0], Budget(sections, used, high, limits), limits);
    IndexSectionsStep(sections, used, low, limits, first);
    IndexSectionsStep(sections, used, high, limits, last);
    var firstRest := if first.cut then [] else IndexSections(sections[1..], used + first.Chars(), low, limits).sections;
    var lastRest := if last.cut then [] else IndexSections(sections[1..], used + last.Chars(), high, limits).sections;
    SameHead(first, firstRest, last, lastRest);
  }

  /** Indexing that gives the same sections under two caps gives them under every cap between. */
  lemma {:induction false} IndexSectionsSandwich(sections: seq<SectionInput>, used: nat, low: int, mid: int, high: int, limits: Limits)
    requires limits.Ok() && InputsOk(sections) && low <= mid <= high
    requires IndexSections(sections, used, low, limits).sections == IndexSections(sections, used, high, limits).sections
    ensures IndexSections(sections, used, mid, limits) == IndexSections(sections, used, high, limits)
  {
    hide *;
    if sections == [] {
      NoSections(used, mid, high, limits);
    } else {
      FirstAccepted(sections);
      var lo, mi, hi := Budget(sections, used, low, limits), Budget(sections, used, mid, limits), Budget(sections, used, high, limits);
      BudgetGrows(sections, used, low, mid, limits);
      BudgetGrows(sections, used, mid, high, limits);
      if hi < 0 {
        IndexSectionsStop(sections, used, mid, limits);
        IndexSectionsStop(sections, used, high, limits);
      } else {
        RoomUnderBoth(sections, used, low, high, limits);
        SameUnderBoth(sections, used, low, high, limits);
        var first := IndexSection(sections[0], lo, limits);
        SectionSandwich(sections[0], lo, mi, hi, limits);
        IndexSectionsStep(sections, used, mid, limits, first);
        IndexSectionsStep(sections, used, high, limits, first);
        if !first.cut {
          IndexSectionsSandwich(sections[1..], used + first.Chars(), low, mid, high, limits);
        }
      }
    }
  }

  lemma NoSections(used: nat, mid: int, high: int, limits: Limits)
    requires limits.Ok()
    ensures IndexSections([], used, mid, limits) == IndexSections([], used, high, limits)
  {
  }

  /** More room leaves an unconstrained mutation unconstrained. */
  lemma RoomGrows(small: Model, big: Model, mutation: Mutation, config: Config)
    requires config.limits.Ok()
    requires Within(small.tasks, big.tasks) && Within(small.documents, big.documents)
    requires Within(small.messages, big.messages)
    requires HasRoom(big, mutation, config)
    ensures HasRoom(small, mutation, config)
  {
    if !Accepts(mutation) {
      return;
    }
    match mutation {
      case ReplaceDocument(document) =>
        var t := document.taskId;
        CharsWithin(small.(documents := small.documents - {t}), big.(documents := big.documents - {t}));
        IndexSectionsSandwich(OfferedSections(document, config.limits), 0, DocumentCap(big, t, config.limits),
                              DocumentCap(small, t, config.limits), config.limits.maxDocumentChars, config.limits);
      case UpsertMessage(message) =>
        CharsWithin(small.(messages := small.messages - {message.id}), big.(messages := big.messages - {message.id}));
      case _ =>
    }
  }

  /* ----- Refinement ----- */

  /** Published titles or documents that no accepted change was about. */
  function Kept<T>(entries: map<string, T>, mutations: seq<Mutation>, kind: EntryKind): map<string, T> {
    map k | k in entries && !Changed(mutations, kind, k) :: entries[k]
  }

  /** Published messages that no accepted change has removed, replaced or dropped with their task. */
  function KeptMessages(base: Model, mutations: seq<Mutation>): map<string, MessageRecord> {
    map m | m in base.messages && !Changed(mutations, MessageOf, m) && !TaskRemoved(mutations, base.messages[m].taskId)
      :: base.messages[m]
  }

  ghost predicate TasksRelated(base: Model, direct: Model, o: Overlay, mutations: seq<Mutation>) {
    && direct.tasks == Kept(base.tasks, mutations, TitleOf) + o.index.tasks
    && forall t :: t in o.index.tasks ==> Changed(mutations, TitleOf, t)
  }

  ghost predicate DocumentsRelated(base: Model, direct: Model, o: Overlay, mutations: seq<Mutation>) {
    && direct.documents == Kept(base.documents, mutations, DocumentOf) + o.index.documents
    && forall t :: t in o.index.documents ==> Changed(mutations, DocumentOf, t)
  }

  ghost predicate MessagesRelated(base: Model, direct: Model, o: Overlay, mutations: seq<Mutation>) {
    && direct.messages == KeptMessages(base, mutations) + o.index.messages
    && (forall m :: m in o.index.messages ==> Changed(mutations, MessageOf, m))
    && direct.messagesSkipped == base.messagesSkipped
    && !o.index.messagesSkipped
  }

  /** The shadow sets say exactly what the run tried. */
  ghost predicate HistoryRelated(o: Overlay, mutations: seq<Mutation>) {
    && (forall t :: t in o.shadowTasks <==> Tried(mutations, TitleOf, t))
    && (forall t :: t in o.shadowDocuments <==> Tried(mutations, DocumentOf, t))
    && (forall m :: m in o.shadowMessages <==> Tried(mutations, MessageOf, m))
    && (forall t :: t in o.deletedTasks <==> TaskRemoved(mutations, t) && !TaskRevived(mutations, t))
    && (forall t :: TaskRevived(mutations, t) ==> TaskRemoved(mutations, t))
  }

  /** How the overlay, the direct index and the published index stay related along a run. */
  ghost predicate Related(base: Model, direct: Model, o: Overlay, mutations: seq<Mutation>) {
    && TasksRelated(base, direct, o, mutations)
    && DocumentsRelated(base, direct, o, mutations)
    && MessagesRelated(base, direct, o, mutations)
  }

  lemma TriedStep(mutations: seq<Mutation>, last: Mutation, kind: EntryKind, id: string)
    ensures Tried(mutations + [last], kind, id) <==> Tried(mutations, kind, id) || Touches(last, kind, id)
    ensures Changed(mutations + [last], kind, id) <==>
            Changed(mutations, kind, id) || (Accepts(last) && Touches(last, kind, id))
  {
    hide Touches, Accepts;
    var all := mutations + [last];
    assert all[|mutations|] == last && forall i :: 0 <= i < |mutations| ==> all[i] == mutations[i];
  }

  lemma RemovedStep(mutations: seq<Mutation>, last: Mutation, t: string)
    ensures TaskRemoved(mutations + [last], t) <==> (TaskRemoved(mutations, t) || last == RemoveTask(t))
  {
    var all := mutations + [last];
    assert all[|mutations|] == last && forall i :: 0 <= i < |mutations| ==> all[i] == mutations[i];
  }

  lemma RevivedStep(mutations: seq<Mutation>, last: Mutation, t: string)
    ensures TaskRevived(mutations + [last], t) <==>
            if last.UpsertTask? && last.task.id == t then TaskRemoved(mutations, t)
            else last != RemoveTask(t) && TaskRevived(mutations, t)
  {
    assert (mutations + [last])[..|mutations|] == mutations;
  }

  lemma HistoryStep(o: Overlay, mutations: seq<Mutation>, last: Mutation, config: Config)
    requires config.limits.Ok() && HistoryRelated(o, mutations)
    ensures HistoryRelated(OverlayApply(o, last, config), mutations + [last])
  {
    hide Attempt, Tried, TaskRemoved, TaskRevived;
    forall kind, id
      ensures Tried(mutations + [last], kind, id) <==> Tried(mutations, kind, id) || Touches(last, kind, id)
    {
      TriedStep(mutations, last, kind, id);
    }
    forall t
      ensures TaskRemoved(mutations + [last], t) <==> (TaskRemoved(mutations, t) || last == RemoveTask(t))
      ensures TaskRevived(mutations + [last], t) <==>
              if last.UpsertTask? && last.task.id == t then TaskRemoved(mutations, t)
              else last != RemoveTask(t) && TaskRevived(mutations, t)
    {
      RemovedStep(mutations, last, t);
      RevivedStep(mutations, last, t);
    }
  }

  lemma {:induction false} RunHistory(mutations: seq<Mutation>, config: Config)
    requires config.limits.Ok()
    ensures HistoryRelated(OverlayRun(mutations, config), mutations)
  {
    hide OverlayApply, HistoryRelated;
    if mutations == [] {
      NoHistory();
    } else {
      var n := |mutations| - 1;
      RunHistory(mutations[..n], config);
      HistoryStep(OverlayRun(mutations[..n], config), mutations[..n], mutations[n], config);
      assert mutations[..n] + [mutations[n]] == mutations;
    }
  }

  lemma NoHistory()
    ensures HistoryRelated(NO_CHANGES, [])
  {
  }

  lemma OverlayWithin(base: Model, direct: Model, o: Overlay, mutations: seq<Mutation>)
    requires Related(base, direct, o, mutations)
    ensures Within(o.index.tasks, direct.tasks) && Within(o.index.documents, direct.documents)
    ensures Within(o.index.messages, direct.messages)
  {
    hide Kept, KeptMessages, Changed;
  }

  lemma ChangedStep(mutations: seq<Mutation>, last: Mutation)
    ensures forall kind, id :: Changed(mutations + [last], kind, id) <==>
                                 Changed(mutations, kind, id) || (Accepts(last) && Touches(last, kind, id))
  {
    hide Changed, Touches, Accepts;
    forall kind, id
      ensures Changed(mutations + [last], kind, id) <==>
              Changed(mutations, kind, id) || (Accepts(last) && Touches(last, kind, id))
    {
      TriedStep(mutations, last, kind, id);
    }
  }

  /** What a mutation leaves of the published messages. */
  lemma KeptStep(base: Model, mutations: seq<Mutation>, last: Mutation)
    ensures KeptMessages(base, mutations + [last]) ==
            map m | m in KeptMessages(base, mutations) && !(Accepts(last) && Touches(last, MessageOf, m))
                    && last != RemoveTask(base.messages[m].taskId)
              :: KeptMessages(base, mutations)[m]
  {
    ChangedStep(mutations, last);
    hide Changed, TaskRemoved, Touches, Accepts;
    forall t {
      RemovedStep(mutations, last, t);
    }
  }

  /** What a mutation does to the entries of one kind: some are dropped, then some put. */
  datatype Effect<T> = Effect(drop: set<string>, put: map<string, T>)

  function Effected<T>(entries: map<string, T>, e: Effect<T>): map<string, T> {
    (entries - e.drop) + e.put
  }

  /** An effect on a layered map is the effect on the upper layer, with the dropped keys gone below. */
  lemma LayeredEffect<T>(kept: map<string, T>, over: map<string, T>, e: Effect<T>)
    ensures Effected(kept + over, e) == (kept - e.drop) + Effected(over, e)
  {
  }

  /** The dropped keys are those an accepted mutation is about, and only dropped keys are put. */
  ghost predicate EffectOf<T>(mutation: Mutation, kind: EntryKind, e: Effect<T>) {
    && (forall k :: k in e.drop <==> Accepts(mutation) && Touches(mutation, kind, k))
    && e.put.Keys <= e.drop
  }

  /** A layer over what is kept stays one under the effect of an accepted mutation. */
  lemma EntriesAfter<T>(
    entries: map<string, T>, over: map<string, T>, mutations: seq<Mutation>, kind: EntryKind, last: Mutation, e: Effect<T>)
    requires EffectOf(last, kind, e) && forall k :: k in over ==> Changed(mutations, kind, k)
    ensures var all := mutations + [last];
            && Effected(Kept(entries, mutations, kind) + over, e) == Kept(entries, all, kind) + Effected(over, e)
            && forall k :: k in Effected(over, e) ==> Changed(all, kind, k)
  {
    ChangedStep(mutations, last);
    hide Changed, Accepts, Touches;
    LayeredEffect(Kept(entries, mutations, kind), over, e);
    assert Kept(entries, mutations + [last], kind) == Kept(entries, mutations, kind) - e.drop;
  }

  function TaskEffect(mutation: Mutation, config: Config): Effect<TaskRecord> {
    match mutation
    case UpsertTask(task) =>
      if Accepts(mutation) then
        Effect({task.id}, map[task.id := task.(title := Clip(task.title, config.limits.maxTitleChars))])
      else Effect({}, map[])
    case RemoveTask(t) => Effect({t}, map[])
    case _ => Effect({}, map[])
  }

  lemma AttemptTasks(m: Model, mutation: Mutation, config: Config)
    requires config.limits.Ok()
    ensures Attempt(m, mutation, config).tasks == Effected(m.tasks, TaskEffect(mutation, config))
    ensures EffectOf(mutation, TitleOf, TaskEffect(mutation, config))
  {
    hide IndexDocument, DocumentCap, MessageRoom, MessagesOutside, AcceptsTask, AcceptsDocument, AcceptsMessage;
  }

  lemma TasksStep(base: Model, direct: Model, o: Overlay, mutations: seq<Mutation>, last: Mutation, config: Config)
    requires config.limits.Ok() && TasksRelated(base, direct, o, mutations)
    ensures TasksRelated(base, Attempt(direct, last, config), OverlayApply(o, last, config), mutations + [last])
  {
    AttemptTasks(direct, last, config);
    AttemptTasks(o.index, last, config);
    OverlayAttempts(o, last, config);
    hide Attempt, OverlayApply, Changed, EffectOf, Effected, TaskEffect, Kept;
    EntriesAfter(base.tasks, o.index.tasks, mutations, TitleOf, last, TaskEffect(last, config));
  }

  lemma OverlayAttempts(o: Overlay, mutation: Mutation, config: Config)
    requires config.limits.Ok()
    ensures OverlayApply(o, mutation, config).index == Attempt(o.index, mutation, config)
  {
    hide Attempt;
  }

  /** What a mutation with room does to documents. */
  function DocumentEffect(mutation: Mutation, config: Config): Effect<Document>
    requires config.limits.Ok()
  {
    match mutation
    case ReplaceDocument(document) =>
      if Accepts(mutation) then
        Effect({document.taskId},
               map[document.taskId := IndexDocument(document, config.limits.maxDocumentChars, config.limits)])
      else Effect({}, map[])
    case RemoveTask(t) => Effect({t}, map[])
    case RemoveDocument(t) => Effect({t}, map[])
    case _ => Effect({}, map[])
  }

  lemma AttemptDocuments(m: Model, mutation: Mutation, config: Config)
    requires config.limits.Ok() && HasRoom(m, mutation, config)
    ensures Attempt(m, mutation, config).documents == Effected(m.documents, DocumentEffect(mutation, config))
    ensures EffectOf(mutation, DocumentOf, DocumentEffect(mutation, config))
  {
    hide IndexDocument, DocumentCap, MessageRoom, MessagesOutside, AcceptsTask, AcceptsDocument, AcceptsMessage;
  }

  lemma DocumentsStep(base: Model, direct: Model, o: Overlay, mutations: seq<Mutation>, last: Mutation, config: Config)
    requires config.limits.Ok() && DocumentsRelated(base, direct, o, mutations)
    requires HasRoom(direct, last, config) && HasRoom(o.index, last, config)
    ensures DocumentsRelated(base, Attempt(direct, last, config), OverlayApply(o, last, config), mutations + [last])
  {
    AttemptDocuments(direct, last, config);
    AttemptDocuments(o.index, last, config);
    OverlayAttempts(o, last, config);
    hide Attempt, OverlayApply, HasRoom, Changed, EffectOf, Effected, DocumentEffect, Kept;
    EntriesAfter(base.documents, o.index.documents, mutations, DocumentOf, last, DocumentEffect(last, config));
  }

  lemma ClipRoom(text: Text, max: nat, room: int)
    requires room > 0 && |Clip(text, max)| <= room
    ensures Clip(text, Numbers.Min(max, room)) == Clip(text, max)
  {
  }

  /** What a mutation with room, other than the removal of a task, does to messages. */
  function MessageEffect(mutation: Mutation, config: Config): Effect<MessageRecord> {
    match mutation
    case UpsertMessage(message) =>
      if !Accepts(mutation) then Effect({}, map[])
      else if !config.includeChat then Effect({message.id}, map[])
      else Effect({message.id}, map[message.id := message.(text := Clip(message.text, config.limits.maxMessageChars))])
    case RemoveMessage(m) => Effect({m}, map[])
    case _ => Effect({}, map[])
  }

  lemma MessageEffectOk(mutation: Mutation, config: Config)
    ensures EffectOf(mutation, MessageOf, MessageEffect(mutation, config))
  {
    hide AcceptsTask, AcceptsDocument, AcceptsMessage, Clip;
  }

  lemma AttemptUpsert(m: Model, message: MessageRecord, config: Config)
    requires config.limits.Ok() && AcceptsMessage(message) && HasRoom(m, UpsertMessage(message), config)
    ensures var r := Apply(m, UpsertMessage(message), config);
            && r.messagesSkipped == m.messagesSkipped
            && r.messages == Effected(m.messages, MessageEffect(UpsertMessage(message), config))
  {
    hide AcceptsMessage, MessageRoom, Clip;
    if config.includeChat {
      ClipRoom(message.text, config.limits.maxMessageChars, MessageRoom(m, message.id, config.limits));
    }
  }

  lemma AttemptMessages(m: Model, mutation: Mutation, config: Config)
    requires config.limits.Ok() && HasRoom(m, mutation, config)
    ensures var r := Attempt(m, mutation, config);
            && r.messagesSkipped == m.messagesSkipped
            && r.messages == if mutation.RemoveTask? then MessagesOutside(m.messages, mutation.taskId)
                             else Effected(m.messages, MessageEffect(mutation, config))
  {
    hide IndexDocument, DocumentCap, MessagesOutside, AcceptsTask, AcceptsDocument, AcceptsMessage, MessageRoom, HasRoom, Clip;
    if mutation.UpsertMessage? && Accepts(mutation) {
      AttemptUpsert(m, mutation.message, config);
      hide Apply;
    }
  }

  lemma LayeredOutside(kept: map<string, MessageRecord>, over: map<string, MessageRecord>, t: string)
    requires kept.Keys !! over.Keys
    ensures MessagesOutside(kept + over, t) == MessagesOutside(kept, t) + MessagesOutside(over, t)
  {
  }

  lemma KeptKeys(base: Model, mutations: seq<Mutation>)
    ensures forall m :: m in KeptMessages(base, mutations) ==>
                          && m in base.messages && KeptMessages(base, mutations)[m] == base.messages[m]
                          && !Changed(mutations, MessageOf, m)
  {
  }

  lemma MessagesAfterRemoval(base: Model, over: map<string, MessageRecord>, mutations: seq<Mutation>, t: string)
    requires forall m :: m in over ==> Changed(mutations, MessageOf, m)
    ensures var all := mutations + [RemoveTask(t)];
            && MessagesOutside(KeptMessages(base, mutations) + over, t) == KeptMessages(base, all) + MessagesOutside(over, t)
            && forall m :: m in MessagesOutside(over, t) ==> Changed(all, MessageOf, m)
  {
    KeptKeys(base, mutations);
    ChangedStep(mutations, RemoveTask(t));
    KeptStep(base, mutations, RemoveTask(t));
    hide Changed, KeptMessages, Accepts;
    LayeredOutside(KeptMessages(base, mutations), over, t);
    assert KeptMessages(base, mutations + [RemoveTask(t)]) == MessagesOutside(KeptMessages(base, mutations), t);
  }

  lemma MessagesAfterOther(
    base: Model, over: map<string, MessageRecord>, mutations: seq<Mutation>, last: Mutation, e: Effect<MessageRecord>)
    requires forall m :: m in over ==> Changed(mutations, MessageOf, m)
    requires !last.RemoveTask? && EffectOf(last, MessageOf, e)
    ensures var all := mutations + [last];
            && Effected(KeptMessages(base, mutations) + over, e) == KeptMessages(base, all) + Effected(over, e)
            && forall m :: m in Effected(over, e) ==> Changed(all, MessageOf, m)
  {
    ChangedStep(mutations, last);
    KeptStep(base, mutations, last);
    hide Changed, KeptMessages, Accepts, Touches;
    LayeredEffect(KeptMessages(base, mutations), over, e);
    assert KeptMessages(base, mutations + [last]) == KeptMessages(base, mutations) - e.drop;
  }

  lemma MessagesStep(base: Model, direct: Model, o: Overlay, mutations: seq<Mutation>, last: Mutation, config: Config)
    requires config.limits.Ok() && MessagesRelated(base, direct, o, mutations)
    requires HasRoom(direct, last, config) && HasRoom(o.index, last, config)
    ensures MessagesRelated(base, Attempt(direct, last, config), OverlayApply(o, last, config), mutations + [last])
  {
    AttemptMessages(direct, last, config);
    AttemptMessages(o.index, last, config);
    OverlayAttempts(o, last, config);
    MessageEffectOk(last, config);
    hide Attempt, OverlayApply, HasRoom, Changed, EffectOf, Effected, MessageEffect, KeptMessages, MessagesOutside;
    if last.RemoveTask? {
      MessagesAfterRemoval(base, o.index.messages, mutations, last.taskId);
    } else {
      MessagesAfterOther(base, o.index.messages, mutations, last, MessageEffect(last, config));
    }
  }

  lemma {:induction false} RunRelated(base: Model, mutations: seq<Mutation>, config: Config)
    requires config.limits.Ok() && NeverFull(base, mutations, config)
    ensures Related(base, Run(base, mutations, config), OverlayRun(mutations, config), mutations)
  {
    hide OverlayApply, Attempt, HasRoom;
    if mutations == [] {
      NothingChanged(base);
    } else {
      var n := |mutations| - 1;
      var before, last := mutations[..n], mutations[n];
      assert before + [last] == mutations;
      RunRelated(base, before, config);
      var direct, o := Run(base, before, config), OverlayRun(before, config);
      hide TasksRelated, DocumentsRelated, MessagesRelated;
      OverlayWithin(base, direct, o, before);
      RoomGrows(o.index, direct, last, config);
      TasksStep(base, direct, o, before, last, config);
      DocumentsStep(base, direct, o, before, last, config);
      MessagesStep(base, direct, o, before, last, config);
    }
  }

  lemma NothingChanged(base: Model)
    ensures Related(base, base, NO_CHANGES, [])
  {
    assert Kept(base.tasks, [], TitleOf) == base.tasks && base.tasks + NO_CHANGES.index.tasks == base.tasks;
    assert Kept(base.documents, [], DocumentOf) == base.documents && base.documents + NO_CHANGES.index.documents == base.documents;
    assert KeptMessages(base, []) == base.messages && base.messages + NO_CHANGES.index.messages == base.messages;
  }

  /** What the published layer shows, told from the run. */
  lemma BaseShows(base: Model, o: Overlay, mutations: seq<Mutation>)
    requires HistoryRelated(o, mutations)
    ensures forall t :: t in BaseTasks(base, o) <==> t in base.tasks && !Tried(mutations, TitleOf, t)
    ensures forall t :: t in BaseDocuments(base, o) <==> t in base.documents && !Tried(mutations, DocumentOf, t)
    ensures forall m :: m in BaseMessages(base, o) <==>
                          && m in base.messages && !Tried(mutations, MessageOf, m)
                          && (TaskRemoved(mutations, base.messages[m].taskId) ==> TaskRevived(mutations, base.messages[m].taskId))
  {
    forall t | t in o.deletedTasks
      ensures Tried(mutations, TitleOf, t) && Tried(mutations, DocumentOf, t)
    {
      var i :| 0 <= i < |mutations| && mutations[i] == RemoveTask(t);
      assert Touches(mutations[i], TitleOf, t) && Touches(mutations[i], DocumentOf, t);
    }
    hide Tried, TaskRemoved, TaskRevived;
  }

  /** A layer over what is kept gives the same map exactly when the layer below holds the same keys. */
  lemma SameUnder<T>(base: map<string, T>, below: map<string, T>, kept: map<string, T>, over: map<string, T>)
    requires below.Keys <= base.Keys && kept.Keys <= base.Keys
    requires forall k :: k in below ==> below[k] == base[k]
    requires forall k :: k in kept ==> kept[k] == base[k]
    requires below.Keys !! over.Keys && kept.Keys !! over.Keys
    ensures below + over == kept + over <==> below.Keys == kept.Keys
  {
    if below.Keys == kept.Keys {
      assert below == kept;
    }
    if below + over == kept + over {
      forall k
        ensures k in below <==> k in kept
      {
        assert k in below + over <==> k in kept + over;
      }
    }
  }

  lemma SameTitles(base: Model, direct: Model, o: Overlay, mutations: seq<Mutation>)
    requires TasksRelated(base, direct, o, mutations) && HistoryRelated(o, mutations)
    ensures ViewTasks(base, o) == direct.tasks <==> forall t :: !EntryLost(base, mutations, TitleOf, t)
  {
    BaseShows(base, o, mutations);
    EveryChangeTried(mutations);
    hide Tried, Changed, HistoryRelated;
    var below, kept := BaseTasks(base, o), Kept(base.tasks, mutations, TitleOf);
    SameUnder(base.tasks, below, kept, o.index.tasks);
    assert forall t :: EntryLost(base, mutations, TitleOf, t) <==> t in kept && t !in below;
    assert below.Keys <= kept.Keys;
  }

  lemma SameDocuments(base: Model, direct: Model, o: Overlay, mutations: seq<Mutation>)
    requires DocumentsRelated(base, direct, o, mutations) && HistoryRelated(o, mutations)
    ensures ViewDocuments(base, o) == direct.documents <==> forall t :: !EntryLost(base, mutations, DocumentOf, t)
  {
    BaseShows(base, o, mutations);
    EveryChangeTried(mutations);
    hide Tried, Changed, HistoryRelated;
    var below, kept := BaseDocuments(base, o), Kept(base.documents, mutations, DocumentOf);
    SameUnder(base.documents, below, kept, o.index.documents);
    assert forall t :: EntryLost(base, mutations, DocumentOf, t) <==> t in kept && t !in below;
    assert below.Keys <= kept.Keys;
  }

  lemma SameMessages(base: Model, direct: Model, o: Overlay, mutations: seq<Mutation>)
    requires MessagesRelated(base, direct, o, mutations) && HistoryRelated(o, mutations)
    ensures ViewMessages(base, o) == direct.messages <==>
            forall m :: !MessageLost(base, mutations, m) && !MessageResurfaces(base, mutations, m)
  {
    var below, kept := BaseMessages(base, o), KeptMessages(base, mutations);
    EveryChangeTried(mutations);
    LostOrBack(base, o, mutations);
    assert forall m :: m in o.index.messages ==> m in o.shadowMessages;
    hide Tried, Changed, MessageLost, MessageResurfaces, HistoryRelated;
    SameUnder(base.messages, below, kept, o.index.messages);
  }

  /** Messages that only one of the two sides shows. */
  lemma LostOrBack(base: Model, o: Overlay, mutations: seq<Mutation>)
    requires HistoryRelated(o, mutations)
    ensures forall m :: MessageLost(base, mutations, m) <==> m in KeptMessages(base, mutations) && m !in BaseMessages(base, o)
    ensures forall m :: MessageResurfaces(base, mutations, m) <==>
                          m in BaseMessages(base, o) && m !in KeptMessages(base, mutations)
  {
    BaseShows(base, o, mutations);
    EveryChangeTried(mutations);
    assert forall t :: TaskRevived(mutations, t) ==> TaskRemoved(mutations, t);
    hide Tried, Changed, TaskRemoved, TaskRevived, BaseMessages, HistoryRelated;
  }

  lemma EveryChangeTried(mutations: seq<Mutation>)
    ensures forall kind, id :: Changed(mutations, kind, id) ==> Tried(mutations, kind, id)
  {
  }

  /**
   * The view over a published index and an overlay shows what applying the same changes to the index would
   * leave, whichever of them are refused: the same titles and documents exactly when no published one was
   * only refused, and the same messages exactly when none was only refused and none resurfaces with a
   * revived task.
   */
  lemma ViewRefinesDirectApplication(base: Model, mutations: seq<Mutation>, config: Config)
    requires config.limits.Ok() && NeverFull(base, mutations, config)
    ensures var direct, o := Run(base, mutations, config), OverlayRun(mutations, config);
            && (ViewTasks(base, o) == direct.tasks <==> forall t :: !EntryLost(base, mutations, TitleOf, t))
            && (ViewDocuments(base, o) == direct.documents <==> forall t :: !EntryLost(base, mutations, DocumentOf, t))
            && (ViewMessages(base, o) == direct.messages <==>
                  forall m :: !MessageLost(base, mutations, m) && !MessageResurfaces(base, mutations, m))
  {
    RunRelated(base, mutations, config);
    RunHistory(mutations, config);
    var direct, o := Run(base, mutations, config), OverlayRun(mutations, config);
    hide TasksRelated, DocumentsRelated, MessagesRelated, HistoryRelated, OverlayRun, Run, NeverFull;
    SameTitles(base, direct, o, mutations);
    SameDocuments(base, direct, o, mutations);
    SameMessages(base, direct, o, mutations);
  }

  /** Without refusals the view shows the titles and documents of direct application, and its messages unless one resurfaces. */
  lemma AcceptedChangesLoseNothing(base: Model, mutations: seq<Mutation>, config: Config)
    requires config.limits.Ok() && NeverFull(base, mutations, config)
    requires forall i :: 0 <= i < |mutations| ==> Accepts(mutations[i])
    ensures var direct, o := Run(base, mutations, config), OverlayRun(mutations, config);
            && ViewTasks(base, o) == direct.tasks && ViewDocuments(base, o) == direct.documents
            && (ViewMessages(base, o) == direct.messages <==> forall m :: !MessageResurfaces(base, mutations, m))
  {
    hide Run, OverlayRun, NeverFull, Accepts, MessageResurfaces;
    ViewRefinesDirectApplication(base, mutations, config);
    assert forall kind, id :: !EntryLost(base, mutations, kind, id);
    assert forall m :: !MessageLost(base, mutations, m);
  }

  /** The overlay holds no entry that it does not hide below, whatever was refused or left out for room. */
  ghost predicate Hides(o: Overlay) {
    && o.index.tasks.Keys <= o.shadowTasks
    && o.index.documents.Keys <= o.shadowDocuments
    && o.index.messages.Keys <= o.shadowMessages
  }

  lemma HidesStep(o: Overlay, mutation: Mutation, config: Config)
    requires config.limits.Ok() && Hides(o)
    ensures Hides(OverlayApply(o, mutation, config))
  {
    hide IndexDocument, DocumentCap, MessageRoom, AcceptsTask, AcceptsDocument, AcceptsMessage, Clip;
  }

  lemma {:induction false} RunHides(mutations: seq<Mutation>, config: Config)
    requires config.limits.Ok()
    ensures Hides(OverlayRun(mutations, config))
  {
    hide OverlayApply;
    if mutations != [] {
      RunHides(mutations[..|mutations| - 1], config);
      HidesStep(OverlayRun(mutations[..|mutations| - 1], config), mutations[|mutations| - 1], config);
    }
  }

  /** No entry is shown by both layers, in any run. */
  lemma LayersDisjoint(base: Model, mutations: seq<Mutation>, config: Config)
    requires config.limits.Ok()
    ensures var o := OverlayRun(mutations, config);
            && BaseTasks(base, o).Keys !! o.index.tasks.Keys
            && BaseDocuments(base, o).Keys !! o.index.documents.Keys
            && BaseMessages(base, o).Keys !! o.index.messages.Keys
  {
    hide OverlayRun;
    RunHides(mutations, config);
  }

  /** Removing a task and upserting it again, even in vain, brings its published messages back, in the view only. */
  lemma RevivedTaskResurfaces(base: Model, m: string, task: TaskRecord, config: Config)
    requires config.limits.Ok()
    requires m in base.messages && base.messages[m].taskId == task.id
    ensures var mutations := [RemoveTask(task.id), UpsertTask(task)];
            && NeverFull(base, mutations, config)
            && m in ViewMessages(base, OverlayRun(mutations, config))
            && m !in Run(base, mutations, config).messages
  {
    hide AcceptsTask;
    var first, both := [RemoveTask(task.id)], [RemoveTask(task.id), UpsertTask(task)];
    assert both[..1] == first && first[..0] == [];
    assert NeverFull(base, [], config) && NeverFull(base, first, config);
    assert OverlayRun([], config) == NO_CHANGES && Run(base, [], config) == base;
    assert OverlayRun(first, config) == OverlayApply(NO_CHANGES, RemoveTask(task.id), config);
    assert Run(base, first, config) == Attempt(base, RemoveTask(task.id), config);
    assert OverlayRun(both, config) == OverlayApply(OverlayRun(first, config), UpsertTask(task), config);
    assert Run(base, both, config) == Attempt(Run(base, first, config), UpsertTask(task), config);
  }

  /** A refused upsert hides the published title, which direct application keeps. */
  lemma RefusedUpsertLoses(base: Model, task: TaskRecord, config: Config)
    requires config.limits.Ok() && task.id in base.tasks && !AcceptsTask(task)
    ensures var mutations := [UpsertTask(task)];
            && NeverFull(base, mutations, config)
            && task.id !in ViewTasks(base, OverlayRun(mutations, config))
            && task.id in Run(base, mutations, config).tasks
  {
    hide AcceptsTask;
    var only := [UpsertTask(task)];
    assert only[..0] == [] && NeverFull(base, [], config);
    assert OverlayRun([], config) == NO_CHANGES && Run(base, [], config) == base;
  }
}
