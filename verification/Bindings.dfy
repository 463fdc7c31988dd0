/** apps/web/src/actions/bindings.ts: which key binding each action has, and what a remap may change. */
module Bindings {
  import opened Wrappers
  import opened Keys
  import opened KeysRoundTrip

  datatype Context = Modal | Menu | Editor | Pane | App
  datatype PaneId = Inbox | Page
  datatype Platform = Mac | OtherPlatform

  datatype Action = Action(id: string, context: Context, pane: Option<PaneId>, defaultBinding: Option<string>)

  /** An override of None unbinds the action. */
  datatype Preferences = Preferences(overrides: map<string, Option<string>>, singleKeyShortcuts: bool)

  const DEFAULT_PREFERENCES := Preferences(map[], true)

  /* ----- Reserved bindings ----- */

  const RESERVED_TABS: set<string> := {
    "tab", "shift+tab", "escape", "mod+t", "mod+shift+t", "mod+w", "mod+shift+w", "mod+n", "mod+shift+n", "mod+l",
    "mod+r", "mod+shift+r", "mod+p", "mod+d", "mod+j", "mod+o"
  }

  const RESERVED_EDITING: set<string> := {
    "mod+k", "mod+s", "mod+c", "mod+v", "mod+x", "mod+a", "mod+z", "mod+shift+z", "mod+y", "mod+plus", "mod+=",
    "mod+-", "mod+0", "mod+shift+i", "mod+shift+j", "mod+shift+c"
  }

  const RESERVED_MOVING: set<string> := {
    "mod+shift+delete", "f5", "f11", "f12", "alt+arrowleft", "alt+arrowright", "mod+tab", "mod+shift+tab", "mod+1",
    "mod+2", "mod+3", "mod+4", "mod+5", "mod+6", "mod+7", "mod+8", "mod+9"
  }

  const RESERVED_COMMON := RESERVED_TABS + RESERVED_EDITING + RESERVED_MOVING

  const RESERVED_MAC: set<string> := {
    "mod+q", "mod+h", "mod+alt+h", "mod+m", "mod+,", "mod+`", "mod+[", "mod+]", "mod+space", "ctrl+space",
    "mod+alt+i", "mod+alt+j", "mod+shift+3", "mod+shift+4", "mod+shift+5", "ctrl+arrowleft", "ctrl+arrowright",
    "ctrl+arrowup", "ctrl+arrowdown"
  }

  const RESERVED_OTHER: set<string> := {
    "alt+f4", "mod+h", "mod+e", "mod+f4", "alt+home", "mod+shift+b", "meta+d", "meta+l"
  }

  predicate IsReserved(canonical: string, platform: Platform) {
    canonical in RESERVED_COMMON || canonical in if platform.Mac? then RESERVED_MAC else RESERVED_OTHER
  }

  /* ----- Effective bindings ----- */

  function Source(action: Action, preferences: Preferences): Option<string> {
    if action.id in preferences.overrides then preferences.overrides[action.id] else action.defaultBinding
  }

  function EffectiveOf(action: Action, preferences: Preferences): Option<ParsedBinding> {
    var source := Source(action, preferences);
    if source.None? || source.value == "" then None else ParseBinding(source.value)
  }

  function BindingsOf(actions: seq<Action>, preferences: Preferences): map<string, Option<ParsedBinding>> {
    if actions == [] then map[]
    else
      var last := actions[|actions| - 1];
      BindingsOf(actions[..|actions| - 1], preferences)[last.id := EffectiveOf(last, preferences)]
  }

  predicate UniqueIds(actions: seq<Action>) {
    forall i, j :: 0 <= i < j < |actions| ==> actions[i].id != actions[j].id
  }

  lemma {:induction false} BindingsHoldEffective(actions: seq<Action>, preferences: Preferences)
    requires UniqueIds(actions)
    ensures forall id :: id in BindingsOf(actions, preferences) ==> exists i :: 0 <= i < |actions| && actions[i].id == id
    ensures forall i :: 0 <= i < |actions| ==>
                          && actions[i].id in BindingsOf(actions, preferences)
                          && BindingsOf(actions, preferences)[actions[i].id] == EffectiveOf(actions[i], preferences)
  {
    hide EffectiveOf;
    if actions != [] {
      BindingsHoldEffective(actions[..|actions| - 1], preferences);
    }
  }

  method EffectiveBindings(actions: seq<Action>, preferences: Preferences)
    returns (bindings: map<string, Option<ParsedBinding>>)
    ensures bindings == BindingsOf(actions, preferences)
  {
    hide EffectiveOf;
    bindings := map[];
    assert actions[..0] == [];
    for i := 0 to |actions|
      invariant bindings == BindingsOf(actions[..i], preferences)
    {
      assert actions[..i + 1][..i] == actions[..i];
      bindings := bindings[actions[i].id := EffectiveOf(actions[i], preferences)];
    }
    assert actions[..|actions|] == actions;
  }

  /* ----- Collisions ----- */

  predicate IsLayered(action: Action) {
    action.context == Modal || action.context == Menu
  }

  /** Whether two actions can both be active for one key press. */
  predicate ContextsOverlap(a: Action, b: Action) {
    if a.context == b.context then a.context != Pane || a.pane.None? || b.pane.None? || a.pane == b.pane
    else if a.context == App then !IsLayered(b)
    else if b.context == App then !IsLayered(a)
    else false
  }

  /** Equal as far as the shorter one goes, chord by chord in canonical form. */
  predicate Collide(a: seq<Chord>, b: seq<Chord>) {
    forall i :: 0 <= i < |a| && i < |b| ==> ChordCanonical(a[i]) == ChordCanonical(b[i])
  }

  method BindingsCollide(a: ParsedBinding, b: ParsedBinding) returns (collide: bool)
    ensures collide <==> Collide(a.steps, b.steps)
  {
    var length := if |a.steps| <= |b.steps| then |a.steps| else |b.steps|;
    for index := 0 to length
      invariant forall i :: 0 <= i < index ==> ChordCanonical(a.steps[i]) == ChordCanonical(b.steps[i])
    {
      if ChordCanonical(a.steps[index]) != ChordCanonical(b.steps[index]) {
        return false;
      }
    }
    collide := true;
  }

  /** Parsed bindings collide exactly when the steps of one begin the steps of the other. */
  lemma CollideMeansPrefix(a: seq<Chord>, b: seq<Chord>)
    requires ValidSteps(a) && ValidSteps(b)
    ensures Collide(a, b) <==> a <= b || b <= a
  {
    hide ChordCanonical, ValidChord, StepsOk;
    if Collide(a, b) {
      forall i | 0 <= i < |a| && i < |b|
        ensures a[i] == b[i]
      {
        assert ValidChord(a[i]) && ValidChord(b[i]);
        CanonicalTells(a[i], b[i]);
      }
    }
  }

  /* ----- Conflicts ----- */

  datatype Conflict = Conflict(first: string, second: string, binding: string)

  /** The conflict of two actions with the given bindings, if they have one. */
  function PairConflict(a: Action, b: Action, bindings: map<string, Option<ParsedBinding>>): Option<Conflict> {
    if a.id !in bindings || b.id !in bindings || bindings[a.id].None? || bindings[b.id].None? then None
    else if ContextsOverlap(a, b) && Collide(bindings[a.id].value.steps, bindings[b.id].value.steps) then
      Some(Conflict(a.id, b.id, bindings[a.id].value.canonical))
    else None
  }

  function Listed(conflict: Option<Conflict>): seq<Conflict> {
    if conflict.None? then [] else [conflict.value]
  }

  /** The conflicts of action `i` with the later actions before `n`. */
  function RowConflicts(
    actions: seq<Action>, bindings: map<string, Option<ParsedBinding>>, i: nat, n: nat): seq<Conflict>
    requires i < n <= |actions|
  {
    if n == i + 1 then []
    else RowConflicts(actions, bindings, i, n - 1) + Listed(PairConflict(actions[i], actions[n - 1], bindings))
  }

  /** The conflicts of the first `m` actions with later ones. */
  function ConflictsUpTo(actions: seq<Action>, bindings: map<string, Option<ParsedBinding>>, m: nat): seq<Conflict>
    requires m <= |actions|
  {
    if m == 0 then []
    else ConflictsUpTo(actions, bindings, m - 1) + RowConflicts(actions, bindings, m - 1, |actions|)
  }

  function Conflicts(actions: seq<Action>, bindings: map<string, Option<ParsedBinding>>): seq<Conflict> {
    ConflictsUpTo(actions, bindings, |actions|)
  }

  lemma {:induction false} NoRow(
    actions: seq<Action>, bindings: map<string, Option<ParsedBinding>>, i: nat, n: nat)
    requires i < n <= |actions| && (actions[i].id !in bindings || bindings[actions[i].id].None?)
    ensures RowConflicts(actions, bindings, i, n) == []
  {
    if n > i + 1 {
      NoRow(actions, bindings, i, n - 1);
    }
  }

  lemma NextPair(
    actions: seq<Action>, bindings: map<string, Option<ParsedBinding>>, i: nat, k: nat, before: seq<Conflict>)
    requires i < k < |actions|
    ensures before + RowConflicts(actions, bindings, i, k + 1) ==
            before + RowConflicts(actions, bindings, i, k) + Listed(PairConflict(actions[i], actions[k], bindings))
  {
    hide PairConflict;
  }

  lemma RowStarts(
    actions: seq<Action>, bindings: map<string, Option<ParsedBinding>>, i: nat, before: seq<Conflict>)
    requires i < |actions|
    ensures before + RowConflicts(actions, bindings, i, i + 1) == before
  {
  }

  lemma NextRow(actions: seq<Action>, bindings: map<string, Option<ParsedBinding>>, m: nat)
    requires m < |actions|
    ensures ConflictsUpTo(actions, bindings, 0) == []
    ensures ConflictsUpTo(actions, bindings, m + 1) ==
            ConflictsUpTo(actions, bindings, m) + RowConflicts(actions, bindings, m, |actions|)
  {
  }

  method FindConflicts(actions: seq<Action>, bindings: map<string, Option<ParsedBinding>>)
    returns (conflicts: seq<Conflict>)
    ensures conflicts == Conflicts(actions, bindings)
  {
    hide Collide, ContextsOverlap, RowConflicts;
    conflicts := [];
    for index := 0 to |actions|
      invariant conflicts == ConflictsUpTo(actions, bindings, index)
    {
      var action := actions[index];
      ghost var before := conflicts;
      hide ConflictsUpTo;
      NextRow(actions, bindings, index);
      RowStarts(actions, bindings, index, before);
      if action.id !in bindings || bindings[action.id].None? {
        NoRow(actions, bindings, index, |actions|);
        continue;
      }
      var binding := bindings[action.id].value;
      for k := index + 1 to |actions|
        invariant conflicts == before + RowConflicts(actions, bindings, index, k)
      {
        NextPair(actions, bindings, index, k, before);
        var other := actions[k];
        if other.id !in bindings || bindings[other.id].None? {
          continue;
        }
        var collide := BindingsCollide(binding, bindings[other.id].value);
        if ContextsOverlap(action, other) && collide {
          conflicts := conflicts + [Conflict(action.id, other.id, binding.canonical)];
        }
      }
    }
  }

  lemma {:induction false} RowHolds(
    actions: seq<Action>, bindings: map<string, Option<ParsedBinding>>, i: nat, n: nat, c: Conflict)
    requires i < n <= |actions|
    ensures c in RowConflicts(actions, bindings, i, n) <==>
            exists j :: i < j < n && PairConflict(actions[i], actions[j], bindings) == Some(c)
  {
    hide PairConflict;
    if n > i + 1 {
      RowHolds(actions, bindings, i, n - 1, c);
      var last := PairConflict(actions[i], actions[n - 1], bindings);
      InConcat(RowConflicts(actions, bindings, i, n - 1), last, c);
    }
  }

  lemma InConcat(conflicts: seq<Conflict>, last: Option<Conflict>, c: Conflict)
    ensures c in conflicts + Listed(last) <==> c in conflicts || last == Some(c)
  {
  }

  /** findConflicts reports every conflicting pair, and nothing else. */
  lemma {:induction false} ConflictsHold(
    actions: seq<Action>, bindings: map<string, Option<ParsedBinding>>, m: nat, c: Conflict)
    requires m <= |actions|
    ensures c in ConflictsUpTo(actions, bindings, m) <==>
            exists i, j :: 0 <= i < m && i < j < |actions| && PairConflict(actions[i], actions[j], bindings) == Some(c)
  {
    hide PairConflict, RowConflicts;
    if m > 0 {
      ConflictsHold(actions, bindings, m - 1, c);
      RowHolds(actions, bindings, m - 1, |actions|, c);
    }
  }

  /* ----- Remapping ----- */

  datatype RemapResult =
    | Remapped(binding: Option<ParsedBinding>, preferences: Preferences)
    | UnknownAction
    | InvalidBinding
    | ReservedBinding
    | ConflictingBinding(conflictsWith: seq<string>)

  function FindAction(actions: seq<Action>, id: string): Option<Action> {
    if actions == [] then None
    else if actions[0].id == id then Some(actions[0])
    else FindAction(actions[1..], id)
  }

  /** The other actions of the conflicts that involve an action. */
  function Others(conflicts: seq<Conflict>, id: string): seq<string> {
    if conflicts == [] then []
    else
      var before, last := Others(conflicts[..|conflicts| - 1], id), conflicts[|conflicts| - 1];
      if last.first == id then before + [last.second]
      else if last.second == id then before + [last.first]
      else before
  }

  /** Whether the action has this binding by default. */
  predicate OwnsDefault(action: Action, canonical: string) {
    && action.defaultBinding.Some?
    && ParseBinding(action.defaultBinding.value).Some?
    && ParseBinding(action.defaultBinding.value).value.canonical == canonical
  }

  function WithOverride(preferences: Preferences, id: string, binding: Option<string>): Preferences {
    preferences.(overrides := preferences.overrides[id := binding])
  }

  function Validate(id: string, binding: Option<string>, actions: seq<Action>, preferences: Preferences, platform: Platform)
    : RemapResult
  {
    var action := FindAction(actions, id);
    if action.None? then UnknownAction
    else if binding.None? then Remapped(None, WithOverride(preferences, id, None))
    else
      var parsed := ParseBinding(binding.value);
      if parsed.None? then InvalidBinding
      else
        var canonical := parsed.value.canonical;
        if !OwnsDefault(action.value, canonical) && IsReserved(canonical, platform) then ReservedBinding
        else
          var next := WithOverride(preferences, id, Some(canonical));
          var conflictsWith := Others(Conflicts(actions, BindingsOf(actions, next)), id);
          if conflictsWith != [] then ConflictingBinding(conflictsWith) else Remapped(parsed, next)
  }

  method ValidateRemap(
    id: string, binding: Option<string>, actions: seq<Action>, preferences: Preferences, platform: Platform)
    returns (result: RemapResult)
    ensures result == Validate(id, binding, actions, preferences, platform)
  {
    hide FindAction, ParseBinding, OwnsDefault, IsReserved, Conflicts, BindingsOf, Others;
    var action := FindAction(actions, id);
    if action.None? {
      return UnknownAction;
    }
    if binding.None? {
      return Remapped(None, WithOverride(preferences, id, None));
    }
    var parsed := ParseBinding(binding.value);
    if parsed.None? {
      return InvalidBinding;
    }
    var canonical := parsed.value.canonical;
    if !OwnsDefault(action.value, canonical) && IsReserved(canonical, platform) {
      return ReservedBinding;
    }
    var next := WithOverride(preferences, id, Some(canonical));
    var bindings := EffectiveBindings(actions, next);
    var conflicts := FindConflicts(actions, bindings);
    var conflictsWith := Others(conflicts, id);
    if conflictsWith != [] {
      return ConflictingBinding(conflictsWith);
    }
    result := Remapped(parsed, next);
  }

  /* ----- Stored preferences ----- */

  /** A stored binding: a string, null, or anything else. */
  datatype StoredBinding = StoredText(text: string) | StoredNull | StoredOther

  datatype StoredEntry = StoredEntry(id: string, binding: StoredBinding)

  /** What was stored, as far as it is looked at. */
  datatype Stored =
    | NoObject
    | Record(overrides: Option<seq<StoredEntry>>, singleKeyShortcuts: Option<bool>)

  function Accept(e: StoredEntry, actions: seq<Action>, preferences: Preferences, platform: Platform): Preferences {
    if e.binding.StoredOther? then preferences
    else
      var binding := if e.binding.StoredNull? then None else Some(e.binding.text);
      var result := Validate(e.id, binding, actions, preferences, platform);
      if result.Remapped? then result.preferences else preferences
  }

  function AcceptAll(entries: seq<StoredEntry>, actions: seq<Action>, preferences: Preferences, platform: Platform)
    : Preferences
  {
    if entries == [] then preferences
    else
      Accept(entries[|entries| - 1], actions, AcceptAll(entries[..|entries| - 1], actions, preferences, platform), platform)
  }

  function Parsed(stored: Stored, actions: seq<Action>, platform: Platform): Preferences {
    if stored.NoObject? then DEFAULT_PREFERENCES
    else
      var start := Preferences(map[], if stored.singleKeyShortcuts.Some? then stored.singleKeyShortcuts.value else true);
      if stored.overrides.None? then start else AcceptAll(stored.overrides.value, actions, start, platform)
  }

  method ParseKeyboardPreferences(stored: Stored, actions: seq<Action>, platform: Platform)
    returns (preferences: Preferences)
    ensures preferences == Parsed(stored, actions, platform)
  {
    hide Validate;
    if stored.NoObject? {
      return DEFAULT_PREFERENCES;
    }
    var singleKeyShortcuts := if stored.singleKeyShortcuts.Some? then stored.singleKeyShortcuts.value else true;
    preferences := Preferences(map[], singleKeyShortcuts);
    ghost var start := preferences;
    if stored.overrides.Some? {
      var entries := stored.overrides.value;
      assert entries[..0] == [];
      for i := 0 to |entries|
        invariant preferences == AcceptAll(entries[..i], actions, start, platform)
      {
        assert entries[..i + 1][..i] == entries[..i];
        var e := entries[i];
        if e.binding.StoredOther? {
          continue;
        }
        var binding := if e.binding.StoredNull? then None else Some(e.binding.text);
        var result := ValidateRemap(e.id, binding, actions, preferences, platform);
        if result.Remapped? {
          preferences := result.preferences;
        }
      }
      assert entries[..|entries|] == entries;
    }
  }
}
