/** packages/search/src/view.ts: the overlay builder and the view a query runs over. */
module SearchViews {
  import opened Wrappers
  import opened SearchRecords
  import opened IndexModel
  import opened IndexTables
  import opened OverlayModel
  import opened SearchIndexes
  import opened ArtifactModel
  import opened DocIdNames = DocIds

  /** Which base documents are current, decided from the document id as the source does. */
  predicate Visible(base: Model, o: Overlay, docId: string) {
    match DocKind(docId)
    case Some(TitleKind) => TaskShown(o, DocTaskId(docId))
    case Some(SectionKind) => DocumentShown(o, DocTaskId(docId))
    case Some(MessageKind) => MessageShown(base, o, DocMessageId(docId))
    case None => false
  }

  function FromBase(base: Model, o: Overlay, id: DocId): Option<Fields> {
    if Visible(base, o, IdText(id)) then FieldsAt(base, id) else None
  }

  /** The visibility rule on the text of an id is the rule on the record it names. */
  lemma VisibleShows(base: Model, o: Overlay, id: DocId)
    requires Proper(id)
    ensures id.TitleDoc? ==> (Visible(base, o, IdText(id)) <==> TaskShown(o, id.taskId))
    ensures id.SectionDoc? ==> (Visible(base, o, IdText(id)) <==> DocumentShown(o, id.taskId))
    ensures id.MessageDoc? ==> (Visible(base, o, IdText(id)) <==> MessageShown(base, o, id.messageId))
  {
    DocIdParts(id);
    hide IdText, DocTaskId, DocMessageId, IsUuidV7;
  }

  /** A text that is no id of a title, a section or a message is hidden. */
  lemma OthersAreHidden(base: Model, o: Overlay, docId: string)
    requires docId == "" || (docId[0] != 't' && docId[0] != 's' && docId[0] != 'm')
    ensures !Visible(base, o, docId)
  {
  }

  /** The record the id names is one that the view gets wrong: lost to a refusal, or resurfaced. */
  predicate Misplaced(base: Model, mutations: seq<Mutation>, id: DocId) {
    match id
    case TitleDoc(t) => EntryLost(base, mutations, TitleOf, t)
    case SectionDoc(t, _, _) => EntryLost(base, mutations, DocumentOf, t)
    case MessageDoc(m) => MessageLost(base, mutations, m) || MessageResurfaces(base, mutations, m)
  }

  /**
   * Every document of the directly changed index is visible in exactly one layer, with the same text,
   * and nothing else is visible, but for records lost to a refusal or resurfaced.
   */
  lemma ViewDocumentsExact(base: Model, mutations: seq<Mutation>, config: Config, id: DocId)
    requires config.limits.Ok() && NeverFull(base, mutations, config)
    requires Proper(id) && !Misplaced(base, mutations, id)
    ensures var direct, o := Run(base, mutations, config), OverlayRun(mutations, config);
            var below, above := FromBase(base, o, id), FieldsAt(o.index, id);
            && (below.None? || above.None?)
            && FieldsAt(direct, id) == if above.Some? then above else below
  {
    hide Visible, IdText, NeverFull, HasRoom, EntryIn, Tried, Changed, TaskRemoved, TaskRevived, IsUuidV7;
    RunRelated(base, mutations, config);
    RunHistory(mutations, config);
    var o := OverlayRun(mutations, config);
    BaseShows(base, o, mutations);
    VisibleShows(base, o, id);
    EveryChangeTried(mutations);
    hide OverlayRun, Run;
  }

  lemma NothingListed()
    ensures TasksIn([]) == map[]
  {
  }

  class SearchView {
    const base: SearchIndex?
    const overlay: SearchIndex?
    const shadow: Overlay

    ghost predicate Valid()
      reads base, overlay, if base == null then {} else {base.miniSearch}, if overlay == null then {} else {overlay.miniSearch}
    {
      && (base == null || base.Valid())
      && (overlay == null || overlay.Valid())
      && (base != null || overlay != null)
      && (overlay != null ==> shadow.index == overlay.model)
      && (overlay == null ==> shadow.index == EMPTY)
    }

    ghost function Base(): Model
      reads base
    {
      if base == null then EMPTY else base.model
    }

    constructor (base: SearchIndex?, overlay: SearchIndex?, shadow: Overlay)
      ensures this.base == base && this.overlay == overlay && this.shadow == shadow
    {
      this.base, this.overlay, this.shadow := base, overlay, shadow;
    }

    /** The overlay's record where it has one, else the published record that is not hidden. */
    method Task(taskId: string) returns (r: Option<TaskRecord>)
      requires Valid()
      ensures r == Find(ViewTasks(Base(), shadow), taskId)
    {
      hide Agree;
      if overlay != null {
        RecordsAgree(overlay.Now(), overlay.model);
        if taskId in overlay.taskRecords {
          return Some(overlay.taskRecords[taskId]);
        }
      }
      if taskId in shadow.shadowTasks || taskId in shadow.deletedTasks {
        return None;
      }
      if base == null {
        return None;
      }
      RecordsAgree(base.Now(), base.model);
      return Find(base.taskRecords, taskId);
    }

    /** Every current task record once, overlay first. */
    method Tasks() returns (r: seq<TaskRecord>)
      requires Valid()
      ensures ListsTasks(r) && TasksIn(r) == ViewTasks(Base(), shadow)
    {
      hide Agree, ListsTasks, TasksIn;
      EmptyLists();
      r := [];
      assert TasksIn(r) == map[] by { NothingListed(); }
      var seen: set<string> := {};
      if overlay != null {
        RecordsAgree(overlay.Now(), overlay.model);
        r := overlay.ListTasks();
        seen := overlay.taskRecords.Keys;
      }
      if base != null {
        RecordsNamed(base.Now(), base.model);
        r := AddUnseen(base.taskRecords, r, seen);
      }
    }

    /** The published records the overlay neither replaces nor hides, after those already listed. */
    method AddUnseen(records: map<string, TaskRecord>, listed: seq<TaskRecord>, seen: set<string>) returns (r: seq<TaskRecord>)
      requires ListsTasks(listed) && TasksIn(listed).Keys == seen && forall k :: k in records ==> records[k].id == k
      ensures ListsTasks(r)
      ensures TasksIn(r) == (records - (shadow.shadowTasks + shadow.deletedTasks)) + TasksIn(listed)
    {
      hide ListsTasks, TasksIn;
      var rest := records.Keys;
      ghost var above := TasksIn(listed);
      r := listed;
      while rest != {}
        invariant rest <= records.Keys && ListsTasks(r)
        invariant TasksIn(r) == (records - (rest + shadow.shadowTasks + shadow.deletedTasks)) + above
      {
        var k :| k in rest;
        if k !in seen && k !in shadow.shadowTasks && k !in shadow.deletedTasks {
          TaskListed(r, records[k]);
          r := r + [records[k]];
        }
        rest := rest - {k};
      }
    }
  }

  class SearchOverlayBuilder {
    const base: SearchIndex?
    const overlay: SearchIndex
    var shadowTasks: set<string>
    var deletedTasks: set<string>
    var shadowDocuments: set<string>
    var shadowMessages: set<string>

    ghost function Now(): Overlay
      reads this, overlay
    {
      Overlay(overlay.model, shadowTasks, deletedTasks, shadowDocuments, shadowMessages)
    }

    ghost predicate Valid()
      reads this, overlay, overlay.miniSearch
    {
      overlay.Valid() && overlay as object != this && overlay.miniSearch as object != this
    }

    constructor (base: SearchIndex?, overlay: SearchIndex)
      requires overlay.Valid() && overlay.model == EMPTY
      ensures Valid() && Now() == NO_CHANGES && this.base == base && this.overlay == overlay
    {
      this.base, this.overlay := base, overlay;
      shadowTasks, deletedTasks, shadowDocuments, shadowMessages := {}, {}, {}, {};
    }

    /** Null where the source throws: the overlay and the published index belong to different owners. */
    static method Create(base: SearchIndex?, ownerId: string, includeChat: bool, limits: Limits)
      returns (r: SearchOverlayBuilder?)
      requires limits.Ok()
      ensures r == null <==> base != null && base.ownerId != ownerId
      ensures r != null ==> fresh(r) && fresh(r.overlay) && r.Valid() && r.Now() == NO_CHANGES
                            && r.base == base && r.overlay.Cfg() == Config(limits, includeChat)
    {
      if base != null && base.ownerId != ownerId {
        return null;
      }
      var overlay := new SearchIndex(ownerId, includeChat, limits);
      r := new SearchOverlayBuilder(base, overlay);
    }

    method UpsertTask(task: TaskRecord) returns (ok: bool)
      requires Valid()
      modifies this, overlay, overlay.miniSearch
      ensures Valid()
      ensures ok <==> AcceptsTask(task)
      ensures Now() == OverlayApply(old(Now()), IndexModel.UpsertTask(task), overlay.Cfg())
    {
      hide Apply, AcceptsTask, Agree;
      deletedTasks := deletedTasks - {task.id};
      shadowTasks := shadowTasks + {task.id};
      ok := overlay.UpsertTask(task);
    }

    method RemoveTask(taskId: string)
      requires Valid()
      modifies this, overlay, overlay.miniSearch
      ensures Valid()
      ensures Now() == OverlayApply(old(Now()), IndexModel.RemoveTask(taskId), overlay.Cfg())
    {
      hide Apply, Agree;
      shadowTasks := shadowTasks + {taskId};
      deletedTasks := deletedTasks + {taskId};
      shadowDocuments := shadowDocuments + {taskId};
      overlay.RemoveTask(taskId);
    }

    method ReplaceDocument(document: DocumentInput) returns (ok: bool)
      requires Valid()
      modifies this, overlay, overlay.miniSearch
      ensures Valid()
      ensures ok <==> AcceptsDocument(document)
      ensures Now() == OverlayApply(old(Now()), IndexModel.ReplaceDocument(document), overlay.Cfg())
    {
      hide Apply, AcceptsDocument, Agree;
      shadowDocuments := shadowDocuments + {document.taskId};
      ok := overlay.ReplaceDocument(document);
    }

    method RemoveDocument(taskId: string)
      requires Valid()
      modifies this, overlay, overlay.miniSearch
      ensures Valid()
      ensures Now() == OverlayApply(old(Now()), IndexModel.RemoveDocument(taskId), overlay.Cfg())
    {
      hide Apply, Agree;
      shadowDocuments := shadowDocuments + {taskId};
      overlay.RemoveDocument(taskId);
    }

    method UpsertMessage(message: MessageRecord) returns (ok: bool)
      requires Valid()
      modifies this, overlay, overlay.miniSearch
      ensures Valid()
      ensures ok <==> AcceptsMessage(message)
      ensures Now() == OverlayApply(old(Now()), IndexModel.UpsertMessage(message), overlay.Cfg())
    {
      hide Apply, AcceptsMessage, Agree;
      shadowMessages := shadowMessages + {message.id};
      ok := overlay.UpsertMessage(message);
    }

    method RemoveMessage(messageId: string)
      requires Valid()
      modifies this, overlay, overlay.miniSearch
      ensures Valid()
      ensures Now() == OverlayApply(old(Now()), IndexModel.RemoveMessage(messageId), overlay.Cfg())
    {
      hide Apply, Agree;
      shadowMessages := shadowMessages + {messageId};
      overlay.RemoveMessage(messageId);
    }
  }
}
