/** apps/web/src/actions/bindings.ts: what holds of the keyboard after any edits. */
module KeyboardSafety {
  import opened Wrappers
  import opened Keys
  import opened KeysRoundTrip
  import opened Bindings

  /** Both actions have bindings that collide where both can be active. */
  predicate Clash(a: Action, b: Action, preferences: Preferences) {
    && EffectiveOf(a, preferences).Some? && EffectiveOf(b, preferences).Some?
    && ContextsOverlap(a, b)
    && Collide(EffectiveOf(a, preferences).value.steps, EffectiveOf(b, preferences).value.steps)
  }

  predicate ConflictFree(actions: seq<Action>, preferences: Preferences) {
    forall i, j :: 0 <= i < j < |actions| ==> !Clash(actions[i], actions[j], preferences)
  }

  /** An override in canonical form, of an action, and reserved only if it is that action's default. */
  predicate OverrideOk(id: string, text: string, actions: seq<Action>, platform: Platform) {
    && ParseBinding(text).Some? && ParseBinding(text).value.canonical == text
    && FindAction(actions, id).Some?
    && (IsReserved(text, platform) ==> OwnsDefault(FindAction(actions, id).value, text))
  }

  predicate OverridesOk(actions: seq<Action>, preferences: Preferences, platform: Platform) {
    forall id :: id in preferences.overrides && preferences.overrides[id].Some? ==>
                   OverrideOk(id, preferences.overrides[id].value, actions, platform)
  }

  predicate Safe(actions: seq<Action>, preferences: Preferences, platform: Platform) {
    ConflictFree(actions, preferences) && OverridesOk(actions, preferences, platform)
  }

  lemma {:induction false} OthersHold(conflicts: seq<Conflict>, id: string, c: Conflict)
    requires c in conflicts && (c.first == id || c.second == id)
    ensures Others(conflicts, id) != []
  {
    var front, last := conflicts[..|conflicts| - 1], conflicts[|conflicts| - 1];
    assert conflicts == front + [last];
    if c != last {
      OthersHold(front, id, c);
    }
  }

  /** A clash of two actions shows in the list of conflicts, under the ids of both. */
  lemma ClashIsListed(actions: seq<Action>, preferences: Preferences, i: nat, j: nat, id: string)
    requires UniqueIds(actions) && i < j < |actions| && Clash(actions[i], actions[j], preferences)
    requires actions[i].id == id || actions[j].id == id
    ensures Others(Conflicts(actions, BindingsOf(actions, preferences)), id) != []
  {
    hide EffectiveOf, ContextsOverlap, Collide, BindingsOf, ConflictsUpTo, Others;
    var bindings := BindingsOf(actions, preferences);
    BindingsHoldEffective(actions, preferences);
    var c := PairConflict(actions[i], actions[j], bindings).value;
    ConflictsHold(actions, bindings, |actions|, c);
    OthersHold(Conflicts(actions, bindings), id, c);
  }

  lemma {:induction false} OthersCome(conflicts: seq<Conflict>, id: string)
    requires Others(conflicts, id) != []
    ensures exists c :: c in conflicts && (c.first == id || c.second == id)
  {
    var front, last := conflicts[..|conflicts| - 1], conflicts[|conflicts| - 1];
    assert conflicts == front + [last];
    if last.first == id || last.second == id {
      assert last in conflicts;
    } else {
      OthersCome(front, id);
    }
  }

  ghost predicate ClashesWith(actions: seq<Action>, preferences: Preferences, id: string) {
    exists i, j :: 0 <= i < j < |actions| && (actions[i].id == id || actions[j].id == id)
                   && Clash(actions[i], actions[j], preferences)
  }

  lemma ListedMeansClash(actions: seq<Action>, preferences: Preferences, id: string)
    requires UniqueIds(actions)
    ensures Others(Conflicts(actions, BindingsOf(actions, preferences)), id) != [] <==> ClashesWith(actions, preferences, id)
  {
    hide EffectiveOf, ContextsOverlap, Collide, BindingsOf, ConflictsUpTo, Others;
    var bindings := BindingsOf(actions, preferences);
    if ClashesWith(actions, preferences, id) {
      var i, j :| 0 <= i < j < |actions| && (actions[i].id == id || actions[j].id == id)
                  && Clash(actions[i], actions[j], preferences);
      ClashIsListed(actions, preferences, i, j, id);
    }
    if Others(Conflicts(actions, bindings), id) != [] {
      OthersCome(Conflicts(actions, bindings), id);
      var c :| c in Conflicts(actions, bindings) && (c.first == id || c.second == id);
      ConflictsHold(actions, bindings, |actions|, c);
      var i, j :| 0 <= i < |actions| && i < j < |actions| && PairConflict(actions[i], actions[j], bindings) == Some(c);
      BindingsHoldEffective(actions, preferences);
      assert Clash(actions[i], actions[j], preferences);
    }
  }

  /** A binding that parses and is not reserved is refused exactly when the action would clash with another. */
  lemma RefusedExactlyOnClash(id: string, text: string, actions: seq<Action>, preferences: Preferences, platform: Platform)
    requires UniqueIds(actions) && FindAction(actions, id).Some? && ParseBinding(text).Some?
    requires var canonical := ParseBinding(text).value.canonical;
             OwnsDefault(FindAction(actions, id).value, canonical) || !IsReserved(canonical, platform)
    ensures var next := WithOverride(preferences, id, Some(ParseBinding(text).value.canonical));
            var result := Validate(id, Some(text), actions, preferences, platform);
            && (result.ConflictingBinding? <==> ClashesWith(actions, next, id))
            && (!result.ConflictingBinding? ==> result == Remapped(ParseBinding(text), next))
  {
    hide ParseBinding, FindAction, IsReserved, OwnsDefault, Conflicts, BindingsOf, Others, WithOverride, ClashesWith;
    ListedMeansClash(actions, WithOverride(preferences, id, Some(ParseBinding(text).value.canonical)), id);
  }

  lemma OtherActionsKeep(action: Action, preferences: Preferences, id: string, binding: Option<string>)
    requires action.id != id
    ensures EffectiveOf(action, WithOverride(preferences, id, binding)) == EffectiveOf(action, preferences)
  {
    hide ParseBinding;
  }

  lemma UnboundHasNone(action: Action, preferences: Preferences)
    ensures EffectiveOf(action, WithOverride(preferences, action.id, None)).None?
  {
  }

  lemma OverrideKeepsConflictFree(
    actions: seq<Action>, preferences: Preferences, id: string, binding: Option<string>)
    requires UniqueIds(actions) && ConflictFree(actions, preferences)
    requires binding.Some? ==> Others(Conflicts(actions, BindingsOf(actions, WithOverride(preferences, id, binding))), id) == []
    ensures ConflictFree(actions, WithOverride(preferences, id, binding))
  {
    hide EffectiveOf, ContextsOverlap, Collide, BindingsOf, ConflictsUpTo, Others, WithOverride;
    var next := WithOverride(preferences, id, binding);
    forall i, j | 0 <= i < j < |actions|
      ensures !Clash(actions[i], actions[j], next)
    {
      var a, b := actions[i], actions[j];
      if a.id == id || b.id == id {
        if binding.None? {
          UnboundHasNone(a, preferences);
          UnboundHasNone(b, preferences);
        } else if Clash(a, b, next) {
          ClashIsListed(actions, next, i, j, id);
          assert false;
        }
      } else {
        assert !Clash(a, b, preferences);
        OtherActionsKeep(a, preferences, id, binding);
        OtherActionsKeep(b, preferences, id, binding);
      }
    }
  }

  lemma OverrideKeepsOverrides(
    actions: seq<Action>, preferences: Preferences, id: string, binding: Option<string>, platform: Platform)
    requires OverridesOk(actions, preferences, platform)
    requires binding.Some? ==> OverrideOk(id, binding.value, actions, platform)
    ensures OverridesOk(actions, WithOverride(preferences, id, binding), platform)
  {
    hide OverrideOk;
  }

  /** An accepted remap does what was asked: that action has the binding, or none, and no other changes. */
  lemma RemapTakesEffect(
    id: string, binding: Option<string>, actions: seq<Action>, preferences: Preferences, platform: Platform, action: Action)
    requires Validate(id, binding, actions, preferences, platform).Remapped?
    ensures EffectiveOf(action, Validate(id, binding, actions, preferences, platform).preferences) ==
            if action.id != id then EffectiveOf(action, preferences)
            else if binding.None? then None else ParseBinding(binding.value)
  {
    hide ParseBinding, FindAction, IsReserved, OwnsDefault, Conflicts, BindingsOf, Others;
    if action.id != id {
      var accepted := if binding.None? then None else Some(ParseBinding(binding.value).value.canonical);
      OtherActionsKeep(action, preferences, id, accepted);
    } else if binding.Some? {
      CanonicalParsesBack(binding.value);
      NothingIsNoBinding();
    }
  }

  lemma NothingIsNoBinding()
    ensures ParseBinding("").None?
  {
    assert Words("") == [];
  }

  /** An accepted remap keeps the keyboard safe; a refused one changes nothing. */
  lemma RemapKeepsSafe(
    id: string, binding: Option<string>, actions: seq<Action>, preferences: Preferences, platform: Platform)
    requires UniqueIds(actions) && Safe(actions, preferences, platform)
    ensures var result := Validate(id, binding, actions, preferences, platform);
            result.Remapped? ==> Safe(actions, result.preferences, platform)
  {
    hide ConflictFree, OverridesOk, ParseBinding, FindAction, IsReserved, OwnsDefault, Conflicts, BindingsOf, Others,
         WithOverride;
    if Validate(id, binding, actions, preferences, platform).Remapped? {
      if binding.None? {
        OverrideKeepsConflictFree(actions, preferences, id, None);
        OverrideKeepsOverrides(actions, preferences, id, None, platform);
      } else {
        CanonicalParsesBack(binding.value);
        var canonical := ParseBinding(binding.value).value.canonical;
        OverrideKeepsConflictFree(actions, preferences, id, Some(canonical));
        OverrideKeepsOverrides(actions, preferences, id, Some(canonical), platform);
      }
    }
  }

  lemma {:induction false} EntriesKeepSafe(
    entries: seq<StoredEntry>, actions: seq<Action>, preferences: Preferences, platform: Platform)
    requires UniqueIds(actions) && Safe(actions, preferences, platform)
    ensures Safe(actions, AcceptAll(entries, actions, preferences, platform), platform)
  {
    hide Safe, Validate;
    if entries != [] {
      var front, last := entries[..|entries| - 1], entries[|entries| - 1];
      EntriesKeepSafe(front, actions, preferences, platform);
      var before := AcceptAll(front, actions, preferences, platform);
      if !last.binding.StoredOther? {
        RemapKeepsSafe(last.id, if last.binding.StoredNull? then None else Some(last.binding.text), actions, before, platform);
      }
    }
  }

  /** The toggle does not matter for conflicts. */
  lemma DefaultsAreSafe(actions: seq<Action>, singleKeyShortcuts: bool, platform: Platform)
    requires ConflictFree(actions, DEFAULT_PREFERENCES)
    ensures Safe(actions, Preferences(map[], singleKeyShortcuts), platform)
  {
    hide ParseBinding, Collide, ContextsOverlap;
    var preferences := Preferences(map[], singleKeyShortcuts);
    forall i, j | 0 <= i < j < |actions|
      ensures !Clash(actions[i], actions[j], preferences)
    {
      assert !Clash(actions[i], actions[j], DEFAULT_PREFERENCES);
      assert EffectiveOf(actions[i], preferences) == EffectiveOf(actions[i], DEFAULT_PREFERENCES);
      assert EffectiveOf(actions[j], preferences) == EffectiveOf(actions[j], DEFAULT_PREFERENCES);
    }
  }

  /* ----- Any history ----- */

  datatype Edit =
    | Remap(id: string, binding: Option<string>)
    | RestoreDefaults
    | Load(stored: Stored)

  function Apply(preferences: Preferences, edit: Edit, actions: seq<Action>, platform: Platform): Preferences {
    match edit
    case Remap(id, binding) =>
      var result := Validate(id, binding, actions, preferences, platform);
      if result.Remapped? then result.preferences else preferences
    case RestoreDefaults => DEFAULT_PREFERENCES
    case Load(stored) => Parsed(stored, actions, platform)
  }

  function ApplyAll(preferences: Preferences, edits: seq<Edit>, actions: seq<Action>, platform: Platform): Preferences {
    if edits == [] then preferences
    else Apply(ApplyAll(preferences, edits[..|edits| - 1], actions, platform), edits[|edits| - 1], actions, platform)
  }

  lemma {:induction false} EditsKeepSafe(edits: seq<Edit>, actions: seq<Action>, platform: Platform)
    requires UniqueIds(actions) && ConflictFree(actions, DEFAULT_PREFERENCES)
    ensures Safe(actions, ApplyAll(DEFAULT_PREFERENCES, edits, actions, platform), platform)
  {
    hide Safe, Validate, ConflictFree;
    if edits == [] {
      DefaultsAreSafe(actions, true, platform);
    } else {
      var front, last := edits[..|edits| - 1], edits[|edits| - 1];
      EditsKeepSafe(front, actions, platform);
      var before := ApplyAll(DEFAULT_PREFERENCES, front, actions, platform);
      match last {
        case Remap(id, binding) => RemapKeepsSafe(id, binding, actions, before, platform);
        case RestoreDefaults => DefaultsAreSafe(actions, true, platform);
        case Load(stored) => LoadIsSafe(stored, actions, platform);
      }
    }
  }

  /** Whatever was stored, what is read from it is safe. */
  lemma LoadIsSafe(stored: Stored, actions: seq<Action>, platform: Platform)
    requires UniqueIds(actions) && ConflictFree(actions, DEFAULT_PREFERENCES)
    ensures Safe(actions, Parsed(stored, actions, platform), platform)
  {
    hide Safe, ConflictFree, AcceptAll;
    DefaultsAreSafe(actions, true, platform);
    if stored.Record? {
      var toggle := if stored.singleKeyShortcuts.Some? then stored.singleKeyShortcuts.value else true;
      DefaultsAreSafe(actions, toggle, platform);
      if stored.overrides.Some? {
        EntriesKeepSafe(stored.overrides.value, actions, Preferences(map[], toggle), platform);
      }
    }
  }

  lemma OverlapIsMutual(a: Action, b: Action)
    ensures ContextsOverlap(a, b) == ContextsOverlap(b, a)
  {
  }

  /**
   * From defaults without conflicts, after any remaps, restores and loads of stored preferences: where
   * two actions can both be active, the keys of neither begin the keys of the other.
   */
  lemma KeysStayUnambiguous(edits: seq<Edit>, actions: seq<Action>, platform: Platform, i: nat, j: nat)
    requires UniqueIds(actions) && ConflictFree(actions, DEFAULT_PREFERENCES)
    requires i < |actions| && j < |actions| && i != j && ContextsOverlap(actions[i], actions[j])
    ensures var preferences := ApplyAll(DEFAULT_PREFERENCES, edits, actions, platform);
            var a, b := EffectiveOf(actions[i], preferences), EffectiveOf(actions[j], preferences);
            a.Some? && b.Some? ==> !(a.value.steps <= b.value.steps)
  {
    hide ApplyAll, ParseBinding, Collide, ContextsOverlap, OverridesOk;
    EditsKeepSafe(edits, actions, platform);
    OverlapIsMutual(actions[i], actions[j]);
    var preferences := ApplyAll(DEFAULT_PREFERENCES, edits, actions, platform);
    var a, b := EffectiveOf(actions[i], preferences), EffectiveOf(actions[j], preferences);
    if a.Some? && b.Some? {
      ParsedStepsAreValid(Source(actions[i], preferences).value);
      ParsedStepsAreValid(Source(actions[j], preferences).value);
      CollideMeansPrefix(a.value.steps, b.value.steps);
      CollideMeansPrefix(b.value.steps, a.value.steps);
      if i < j {
        assert !Clash(actions[i], actions[j], preferences);
      } else {
        assert !Clash(actions[j], actions[i], preferences);
      }
    }
  }

  /** No override ever takes a reserved binding from the browser, but for an action that has it by default. */
  lemma ReservedStayReserved(edits: seq<Edit>, actions: seq<Action>, platform: Platform, id: string)
    requires UniqueIds(actions) && ConflictFree(actions, DEFAULT_PREFERENCES)
    requires var overrides := ApplyAll(DEFAULT_PREFERENCES, edits, actions, platform).overrides;
             id in overrides && overrides[id].Some? && IsReserved(overrides[id].value, platform)
    ensures exists i :: 0 <= i < |actions| && actions[i].id == id && actions[i].defaultBinding.Some?
                        && ParseBinding(actions[i].defaultBinding.value) ==
                           ParseBinding(ApplyAll(DEFAULT_PREFERENCES, edits, actions, platform).overrides[id].value)
  {
    hide ApplyAll, ParseBinding, ConflictFree, IsReserved, FindAction;
    EditsKeepSafe(edits, actions, platform);
    var text := ApplyAll(DEFAULT_PREFERENCES, edits, actions, platform).overrides[id].value;
    var action := FindAction(actions, id).value;
    FindActionFinds(actions, id);
    CanonicalMeansSameSteps(text, action.defaultBinding.value);
  }

  lemma {:induction false} FindActionFinds(actions: seq<Action>, id: string)
    requires FindAction(actions, id).Some?
    ensures exists i :: 0 <= i < |actions| && actions[i] == FindAction(actions, id).value && actions[i].id == id
  {
    if actions[0].id != id {
      FindActionFinds(actions[1..], id);
      var i :| 0 <= i < |actions[1..]| && actions[1..][i] == FindAction(actions, id).value;
      assert actions[i + 1].id == id;
    }
  }
}
