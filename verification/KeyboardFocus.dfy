/** apps/web/src/actions/focus.ts and dispatcher.ts: which actions a focus makes active, against contextsOverlap. */
module KeyboardFocus {
  import opened Wrappers
  import opened Bindings
  import opened KeyboardSafety

  /** Where a key press goes: is a modal open, is the target in a menu, is that menu in the modal, and in what region. */
  datatype Focus = Focus(modalOpen: bool, inMenu: bool, menuInModal: bool, inEditor: bool, pane: Option<PaneId>)

  /** An open modal blocks what is beneath it, a menu the page; otherwise editor, pane and app apply. */
  predicate IsContextOf(f: Focus, context: Context) {
    match context
    case Modal => f.modalOpen
    case Menu => f.inMenu && (f.modalOpen ==> f.menuInModal)
    case Editor => !f.modalOpen && !f.inMenu && f.inEditor
    case Pane => !f.modalOpen && !f.inMenu && f.pane.Some?
    case App => !f.modalOpen && !f.inMenu
  }

  predicate IsActive(f: Focus, a: Action) {
    IsContextOf(f, a.context) && (a.context == Pane && a.pane.Some? ==> a.pane == f.pane)
  }

  ghost predicate CanBothBeActive(a: Action, b: Action) {
    exists f :: IsActive(f, a) && IsActive(f, b)
  }

  predicate Are(a: Action, b: Action, x: Context, y: Context) {
    (a.context == x && b.context == y) || (a.context == y && b.context == x)
  }

  /** An editor inside a pane, or a menu inside a modal: both contexts apply, one after the other. */
  predicate OneInside(a: Action, b: Action) {
    Are(a, b, Editor, Pane) || Are(a, b, Menu, Modal)
  }

  /** A focus for two actions of compatible contexts. */
  function FocusFor(a: Action, b: Action): Focus {
    var pane := if a.context == Pane && a.pane.Some? then a.pane else if b.context == Pane && b.pane.Some? then b.pane else Some(Inbox);
    Focus(a.context == Modal || b.context == Modal, a.context == Menu || b.context == Menu, true,
          a.context == Editor || b.context == Editor, pane)
  }

  /**
   * Overlap is being active together, but for an editor and a pane and for a menu and a modal: these count as
   * apart although a focus can make both active.
   */
  lemma OverlapExactly(a: Action, b: Action)
    ensures ContextsOverlap(a, b) <==> CanBothBeActive(a, b) && !OneInside(a, b)
  {
    if ContextsOverlap(a, b) {
      var f := FocusFor(a, b);
      assert IsActive(f, a) && IsActive(f, b);
    }
  }

  /** Each of the two exceptions does occur. */
  lemma InsideIsActiveToo(a: Action, b: Action)
    requires OneInside(a, b)
    ensures CanBothBeActive(a, b) && !ContextsOverlap(a, b)
  {
    var f := FocusFor(a, b);
    assert IsActive(f, a) && IsActive(f, b);
  }

  /**
   * After any edits of defaults without conflicts: of two actions that one focus makes active the keys of
   * neither begin the keys of the other, but for an action of what is inside and one of what is around it.
   */
  lemma ActiveKeysStayUnambiguous(edits: seq<Edit>, actions: seq<Action>, platform: Platform, f: Focus, i: nat, j: nat)
    requires UniqueIds(actions) && ConflictFree(actions, DEFAULT_PREFERENCES)
    requires i < |actions| && j < |actions| && i != j && IsActive(f, actions[i]) && IsActive(f, actions[j])
    requires !OneInside(actions[i], actions[j])
    ensures var preferences := ApplyAll(DEFAULT_PREFERENCES, edits, actions, platform);
            var a, b := EffectiveOf(actions[i], preferences), EffectiveOf(actions[j], preferences);
            a.Some? && b.Some? ==> !(a.value.steps <= b.value.steps)
  {
    hide ApplyAll, EffectiveOf, ConflictFree, ContextsOverlap, IsActive;
    assert CanBothBeActive(actions[i], actions[j]);
    OverlapExactly(actions[i], actions[j]);
    KeysStayUnambiguous(edits, actions, platform, i, j);
  }
}
