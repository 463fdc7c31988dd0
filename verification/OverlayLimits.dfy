/** packages/search/src/view.ts: what a view shows whether or not the corpus limit is met. */
module OverlayLimits {
  import opened SearchRecords
  import opened IndexModel
  import opened OverlayModel

  /** Which revision of each document there is. */
  function Revisions(documents: map<string, Document>): map<string, string> {
    map t | t in documents :: documents[t].revision
  }

  /** What a mutation does to the revisions, with room or without. */
  function RevisionEffect(mutation: Mutation): Effect<string> {
    match mutation
    case ReplaceDocument(document) =>
      if Accepts(mutation) then Effect({document.taskId}, map[document.taskId := document.revision]) else Effect({}, map[])
    case RemoveTask(t) => Effect({t}, map[])
    case RemoveDocument(t) => Effect({t}, map[])
    case _ => Effect({}, map[])
  }

  lemma RevisionPut(documents: map<string, Document>, t: string, d: Document)
    ensures Revisions(documents[t := d]) == Effected(Revisions(documents), Effect({t}, map[t := d.revision]))
  {
  }

  lemma RevisionDropped(documents: map<string, Document>, t: string)
    ensures Revisions(documents - {t}) == Effected(Revisions(documents), Effect({t}, map[]))
  {
  }

  lemma NothingEffected<T>(entries: map<string, T>)
    ensures Effected(entries, Effect({}, map[])) == entries
  {
  }

  lemma AttemptRevisions(m: Model, mutation: Mutation, config: Config)
    requires config.limits.Ok()
    ensures Revisions(Attempt(m, mutation, config).documents) == Effected(Revisions(m.documents), RevisionEffect(mutation))
  {
    hide Revisions, Effected, IndexDocument, DocumentCap, MessageRoom, MessagesOutside, AcceptsTask, AcceptsDocument, AcceptsMessage;
    NothingEffected(Revisions(m.documents));
    match mutation {
      case ReplaceDocument(document) =>
        if Accepts(mutation) {
          var cap := DocumentCap(m, document.taskId, config.limits);
          IndexDocumentIs(document, cap, config.limits);
          RevisionPut(m.documents, document.taskId, IndexDocument(document, cap, config.limits));
        }
      case RemoveTask(t) => RevisionDropped(m.documents, t);
      case RemoveDocument(t) => RevisionDropped(m.documents, t);
      case _ =>
    }
  }

  lemma RevisionEffectOk(mutation: Mutation)
    ensures EffectOf(mutation, DocumentOf, RevisionEffect(mutation))
  {
    hide AcceptsTask, AcceptsDocument, AcceptsMessage;
  }

  ghost predicate RevisionsRelated(base: Model, direct: Model, o: Overlay, mutations: seq<Mutation>) {
    && Revisions(direct.documents) == Kept(Revisions(base.documents), mutations, DocumentOf) + Revisions(o.index.documents)
    && forall t :: t in Revisions(o.index.documents) ==> Changed(mutations, DocumentOf, t)
  }

  lemma RevisionsStep(base: Model, direct: Model, o: Overlay, mutations: seq<Mutation>, last: Mutation, config: Config)
    requires config.limits.Ok() && RevisionsRelated(base, direct, o, mutations)
    ensures RevisionsRelated(base, Attempt(direct, last, config), OverlayApply(o, last, config), mutations + [last])
  {
    AttemptRevisions(direct, last, config);
    AttemptRevisions(o.index, last, config);
    OverlayAttempts(o, last, config);
    RevisionEffectOk(last);
    hide Attempt, OverlayApply, Changed, EffectOf, Effected, RevisionEffect, Kept, Revisions;
    EntriesAfter(Revisions(base.documents), Revisions(o.index.documents), mutations, DocumentOf, last, RevisionEffect(last));
  }

  lemma {:induction false} RunRelatedAnyway(base: Model, mutations: seq<Mutation>, config: Config)
    requires config.limits.Ok()
    ensures var direct, o := Run(base, mutations, config), OverlayRun(mutations, config);
            TasksRelated(base, direct, o, mutations) && RevisionsRelated(base, direct, o, mutations)
  {
    hide OverlayApply, Attempt;
    if mutations == [] {
      NothingChanged(base);
      NoRevisionChanged(base);
    } else {
      var n := |mutations| - 1;
      var before, last := mutations[..n], mutations[n];
      assert before + [last] == mutations;
      RunRelatedAnyway(base, before, config);
      var direct, o := Run(base, before, config), OverlayRun(before, config);
      hide TasksRelated, RevisionsRelated;
      TasksStep(base, direct, o, before, last, config);
      RevisionsStep(base, direct, o, before, last, config);
    }
  }

  lemma NoRevisionChanged(base: Model)
    ensures RevisionsRelated(base, base, NO_CHANGES, [])
  {
    assert Kept(Revisions(base.documents), [], DocumentOf) == Revisions(base.documents);
    assert Revisions(NO_CHANGES.index.documents) == map[];
  }

  lemma SameRevisions(base: Model, direct: Model, o: Overlay, mutations: seq<Mutation>)
    requires RevisionsRelated(base, direct, o, mutations) && HistoryRelated(o, mutations)
    ensures Revisions(ViewDocuments(base, o)) == Revisions(direct.documents) <==>
            forall t :: !EntryLost(base, mutations, DocumentOf, t)
  {
    BaseShows(base, o, mutations);
    EveryChangeTried(mutations);
    hide Tried, Changed, HistoryRelated, BaseDocuments;
    var below, kept := Revisions(BaseDocuments(base, o)), Kept(Revisions(base.documents), mutations, DocumentOf);
    RevisionsJoin(BaseDocuments(base, o), o.index.documents);
    SameUnder(Revisions(base.documents), below, kept, Revisions(o.index.documents));
    assert forall t :: EntryLost(base, mutations, DocumentOf, t) <==> t in kept && t !in below;
    assert below.Keys <= kept.Keys;
  }

  lemma RevisionsJoin(below: map<string, Document>, over: map<string, Document>)
    ensures Revisions(below + over) == Revisions(below) + Revisions(over)
  {
  }

  /**
   * Whatever the corpus limit cuts off, the view shows the titles of direct application, and the same revision
   * of the same documents, exactly when no published entry was only refused.
   */
  lemma ViewAtTheLimit(base: Model, mutations: seq<Mutation>, config: Config)
    requires config.limits.Ok()
    ensures var direct, o := Run(base, mutations, config), OverlayRun(mutations, config);
            && (ViewTasks(base, o) == direct.tasks <==> forall t :: !EntryLost(base, mutations, TitleOf, t))
            && (Revisions(ViewDocuments(base, o)) == Revisions(direct.documents) <==>
                  forall t :: !EntryLost(base, mutations, DocumentOf, t))
  {
    RunRelatedAnyway(base, mutations, config);
    RunHistory(mutations, config);
    var direct, o := Run(base, mutations, config), OverlayRun(mutations, config);
    hide TasksRelated, RevisionsRelated, HistoryRelated, OverlayRun, Run;
    SameTitles(base, direct, o, mutations);
    SameRevisions(base, direct, o, mutations);
  }
}
