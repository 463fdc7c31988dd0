/**
 * apps/web/src/actions/bindings.ts: why a remap is refused, and which stored preferences are read back as they
 * were.
 */
module KeyboardStorage {
  import opened Wrappers
  import opened Keys
  import opened KeysRoundTrip
  import opened Bindings
  import opened KeyboardSafety

  /* ----- Remaps ----- */

  /** The keys the browser and the system keep: everywhere, and on each platform. */
  ghost predicate IsKept(canonical: string, platform: Platform) {
    || canonical in {"tab", "shift+tab", "escape", "f5", "f11", "f12", "alt+arrowleft", "alt+arrowright", "mod+tab",
                     "mod+shift+tab", "mod+1", "mod+2", "mod+3", "mod+4", "mod+5", "mod+6", "mod+7", "mod+8", "mod+9"}
    || canonical in {"mod+a", "mod+c", "mod+d", "mod+j", "mod+k", "mod+l", "mod+n", "mod+o", "mod+p", "mod+r", "mod+s", "mod+t",
                     "mod+v", "mod+w", "mod+x", "mod+y", "mod+z", "mod+0", "mod+plus", "mod+=", "mod+-"}
    || canonical in {"mod+shift+c", "mod+shift+i", "mod+shift+j", "mod+shift+n", "mod+shift+r", "mod+shift+t", "mod+shift+w",
                     "mod+shift+z", "mod+shift+delete"}
    || (platform.Mac? &&
          canonical in {"mod+q", "mod+h", "mod+m", "mod+alt+h", "mod+alt+i", "mod+alt+j", "mod+,", "mod+`", "mod+[", "mod+]",
                        "mod+space", "ctrl+space", "mod+shift+3", "mod+shift+4", "mod+shift+5", "ctrl+arrowleft",
                        "ctrl+arrowright", "ctrl+arrowup", "ctrl+arrowdown"})
    || (platform.OtherPlatform? &&
          canonical in {"alt+f4", "mod+f4", "mod+h", "mod+e", "alt+home", "mod+shift+b", "meta+d", "meta+l"})
  }

  lemma CommonAreKept(canonical: string, platform: Platform)
    requires canonical in RESERVED_COMMON
    ensures IsKept(canonical, platform)
  {
  }

  lemma OwnAreKept(canonical: string, platform: Platform)
    requires canonical in if platform.Mac? then RESERVED_MAC else RESERVED_OTHER
    ensures IsKept(canonical, platform)
  {
  }

  lemma KeptAreReserved(canonical: string, platform: Platform)
    requires IsKept(canonical, platform)
    ensures IsReserved(canonical, platform)
  {
  }

  lemma KeptAre(canonical: string, platform: Platform)
    ensures IsReserved(canonical, platform) <==> IsKept(canonical, platform)
  {
    if IsKept(canonical, platform) {
      KeptAreReserved(canonical, platform);
    } else if canonical in RESERVED_COMMON {
      CommonAreKept(canonical, platform);
    } else if IsReserved(canonical, platform) {
      OwnAreKept(canonical, platform);
    }
    hide IsKept, RESERVED_COMMON, RESERVED_MAC, RESERVED_OTHER;
  }

  /** One of the actions, with this id. */
  ghost predicate IsActionAt(actions: seq<Action>, i: int, id: string) {
    0 <= i < |actions| && actions[i].id == id
  }

  lemma {:induction false} FindActionIs(actions: seq<Action>, id: string, i: int)
    requires UniqueIds(actions) && IsActionAt(actions, i, id)
    ensures FindAction(actions, id) == Some(actions[i])
  {
    if i > 0 {
      FindActionIs(actions[1..], id, i - 1);
    }
  }

  /** The binding is the action's default, written in whatever way. */
  ghost predicate IsDefaultOf(action: Action, text: string) {
    && action.defaultBinding.Some? && ParseBinding(action.defaultBinding.value).Some? && ParseBinding(text).Some?
    && ParseBinding(action.defaultBinding.value).value.steps == ParseBinding(text).value.steps
  }

  lemma OwnsMeans(action: Action, text: string)
    requires ParseBinding(text).Some?
    ensures OwnsDefault(action, ParseBinding(text).value.canonical) <==> IsDefaultOf(action, text)
  {
    hide ParseBinding;
    if action.defaultBinding.Some? && ParseBinding(action.defaultBinding.value).Some? {
      CanonicalMeansSameSteps(action.defaultBinding.value, text);
    }
  }

  /**
   * A remap is refused exactly for an action there is not, for a text that is no binding, for keys that are kept
   * and are not the action's default, and else for a clash with another action; whatever is not refused is
   * stored in canonical form, or as unbound.
   */
  lemma RemapsExactly(id: string, binding: Option<string>, actions: seq<Action>, preferences: Preferences, platform: Platform, i: int)
    requires UniqueIds(actions)
    ensures (forall k :: !IsActionAt(actions, k, id)) ==> Validate(id, binding, actions, preferences, platform) == UnknownAction
    ensures IsActionAt(actions, i, id) ==>
              var result := Validate(id, binding, actions, preferences, platform);
              if binding == None then result == Remapped(None, preferences.(overrides := preferences.overrides[id := None]))
              else
                var parsed := ParseBinding(binding.value);
                if parsed == None then result == InvalidBinding
                else
                  var next := preferences.(overrides := preferences.overrides[id := Some(parsed.value.canonical)]);
                  if IsKept(parsed.value.canonical, platform) && !IsDefaultOf(actions[i], binding.value) then result == ReservedBinding
                  else if ClashesWith(actions, next, id) then result.ConflictingBinding?
                  else result == Remapped(parsed, next)
  {
    hide ParseBinding, Conflicts, BindingsOf, Others, ClashesWith, IsReserved, IsKept, FindAction, OwnsDefault, IsDefaultOf;
    if FindAction(actions, id).Some? {
      FindActionFinds(actions, id);
      var k :| 0 <= k < |actions| && actions[k] == FindAction(actions, id).value && actions[k].id == id;
      assert IsActionAt(actions, k, id);
    }
    if IsActionAt(actions, i, id) {
      FindActionIs(actions, id, i);
      if binding.Some? && ParseBinding(binding.value).Some? {
        var canonical := ParseBinding(binding.value).value.canonical;
        KeptAre(canonical, platform);
        OwnsMeans(actions[i], binding.value);
        ListedMeansClash(actions, WithOverride(preferences, id, Some(canonical)), id);
      }
    }
  }

  lemma {:induction false} OthersAre(conflicts: seq<Conflict>, id: string, other: string)
    requires other != id
    ensures other in Others(conflicts, id)
            <==> exists c :: c in conflicts && ((c.first == id && c.second == other) || (c.first == other && c.second == id))
  {
    if conflicts != [] {
      var n := |conflicts| - 1;
      assert conflicts == conflicts[..n] + [conflicts[n]];
      OthersAre(conflicts[..n], id, other);
    }
  }

  lemma ClashIsMutual(a: Action, b: Action, preferences: Preferences)
    ensures Clash(a, b, preferences) <==> Clash(b, a, preferences)
  {
    hide EffectiveOf, ChordCanonical;
    OverlapIsMutual(a, b);
  }

  lemma PairIsClash(actions: seq<Action>, preferences: Preferences, i: nat, j: nat, c: Conflict)
    requires UniqueIds(actions) && i < |actions| && j < |actions|
    ensures PairConflict(actions[i], actions[j], BindingsOf(actions, preferences)) == Some(c) <==>
            && Clash(actions[i], actions[j], preferences) && c.first == actions[i].id && c.second == actions[j].id
            && c.binding == EffectiveOf(actions[i], preferences).value.canonical
  {
    hide EffectiveOf, ContextsOverlap, Collide, BindingsOf;
    BindingsHoldEffective(actions, preferences);
  }

  /** A remap that clashes is told exactly the other actions it clashes with. */
  lemma ClashesAreNamed(actions: seq<Action>, preferences: Preferences, i: nat, j: nat)
    requires UniqueIds(actions) && i < |actions| && j < |actions| && i != j
    ensures actions[j].id in Others(Conflicts(actions, BindingsOf(actions, preferences)), actions[i].id)
            <==> Clash(actions[i], actions[j], preferences)
  {
    hide Clash, BindingsOf, ConflictsUpTo, Others, PairConflict;
    var bindings, m, n := BindingsOf(actions, preferences), if i < j then i else j, if i < j then j else i;
    OthersAre(Conflicts(actions, bindings), actions[i].id, actions[j].id);
    ClashIsMutual(actions[i], actions[j], preferences);
    if Clash(actions[m], actions[n], preferences) {
      var c := Conflict(actions[m].id, actions[n].id, BindingOf(actions[m], actions[n], preferences));
      PairIsClash(actions, preferences, m, n, c);
      ConflictsHold(actions, bindings, |actions|, c);
    }
    if c :| c in Conflicts(actions, bindings)
            && ((c.first == actions[i].id && c.second == actions[j].id) || (c.first == actions[j].id && c.second == actions[i].id)) {
      ConflictsHold(actions, bindings, |actions|, c);
      var k, l :| 0 <= k < |actions| && k < l < |actions| && PairConflict(actions[k], actions[l], bindings) == Some(c);
      PairIsClash(actions, preferences, k, l, c);
      assert k == m && l == n;
    }
  }

  function BindingOf(a: Action, b: Action, preferences: Preferences): string
    requires Clash(a, b, preferences)
  {
    EffectiveOf(a, preferences).value.canonical
  }

  /* ----- Stored preferences ----- */

  function Stored(id: string, binding: Option<string>): StoredEntry {
    StoredEntry(id, if binding.None? then StoredNull else StoredText(binding.value))
  }

  /** The preferences that some entries are. */
  function FromEntries(entries: seq<(string, Option<string>)>, singleKeyShortcuts: bool): Preferences {
    if entries == [] then Preferences(map[], singleKeyShortcuts)
    else
      var before, last := FromEntries(entries[..|entries| - 1], singleKeyShortcuts), entries[|entries| - 1];
      before.(overrides := before.overrides[last.0 := last.1])
  }

  function StoredEntries(entries: seq<(string, Option<string>)>): seq<StoredEntry> {
    seq(|entries|, i requires 0 <= i < |entries| => Stored(entries[i].0, entries[i].1))
  }

  /** What is read from these entries. */
  function Loaded(entries: seq<(string, Option<string>)>, singleKeyShortcuts: bool, actions: seq<Action>, platform: Platform)
    : Preferences
  {
    Parsed(Record(Some(StoredEntries(entries)), Some(singleKeyShortcuts)), actions, platform)
  }

  /** Each override of acceptable preferences once, in any order. */
  ghost predicate AreEntries(entries: seq<(string, Option<string>)>, actions: seq<Action>, platform: Platform) {
    && (forall i, j :: 0 <= i < j < |entries| ==> entries[i].0 != entries[j].0)
    && forall i :: 0 <= i < |entries| ==> EntryOk(entries[i], actions, platform)
  }

  /** The override of an action: none, or a canonical binding that is kept only as its default. */
  ghost predicate EntryOk(entry: (string, Option<string>), actions: seq<Action>, platform: Platform) {
    && (exists i :: IsActionAt(actions, i, entry.0))
    && (entry.1.Some? ==> OverrideOk(entry.0, entry.1.value, actions, platform))
  }

  /** The entry at `k` clashes with another action once the entries before it are read. */
  ghost predicate ClashesAt(entries: seq<(string, Option<string>)>, singleKeyShortcuts: bool, actions: seq<Action>, k: int) {
    && 0 <= k < |entries| && entries[k].1.Some?
    && ClashesWith(actions, FromEntries(entries[..k + 1], singleKeyShortcuts), entries[k].0)
  }

  lemma OneEntry(entry: (string, Option<string>), actions: seq<Action>, preferences: Preferences, platform: Platform)
    requires UniqueIds(actions) && EntryOk(entry, actions, platform)
    ensures var next := preferences.(overrides := preferences.overrides[entry.0 := entry.1]);
            Accept(Stored(entry.0, entry.1), actions, preferences, platform) ==
            if entry.1.Some? && ClashesWith(actions, next, entry.0) then preferences else next
  {
    hide ParseBinding, Validate, ClashesWith, IsReserved, IsKept, FindAction, OwnsDefault, IsDefaultOf;
    var i :| IsActionAt(actions, i, entry.0);
    RemapsExactly(entry.0, entry.1, actions, preferences, platform, i);
    if entry.1.Some? {
      KeptAre(entry.1.value, platform);
      FindActionIs(actions, entry.0, i);
      OwnsMeans(actions[i], entry.1.value);
    }
  }

  lemma EntriesPush(entries: seq<(string, Option<string>)>, k: nat)
    requires k < |entries|
    ensures StoredEntries(entries[..k + 1]) == StoredEntries(entries[..k]) + [Stored(entries[k].0, entries[k].1)]
    ensures forall single :: FromEntries(entries[..k + 1], single) ==
              var before := FromEntries(entries[..k], single);
              before.(overrides := before.overrides[entries[k].0 := entries[k].1])
  {
    assert entries[..k + 1][..k] == entries[..k];
  }

  lemma AcceptPush(stored: seq<StoredEntry>, e: StoredEntry, actions: seq<Action>, start: Preferences, platform: Platform)
    ensures AcceptAll(stored + [e], actions, start, platform) ==
            Accept(e, actions, AcceptAll(stored, actions, start, platform), platform)
  {
    assert (stored + [e])[..|stored|] == stored;
  }

  /** As long as no entry clashes, what is read is what was stored. */
  lemma {:induction false} ReadSoFar(
    entries: seq<(string, Option<string>)>, single: bool, actions: seq<Action>, platform: Platform, k: nat)
    requires UniqueIds(actions) && AreEntries(entries, actions, platform) && k <= |entries|
    requires forall i :: 0 <= i < k ==> !ClashesAt(entries, single, actions, i)
    ensures AcceptAll(StoredEntries(entries[..k]), actions, Preferences(map[], single), platform) == FromEntries(entries[..k], single)
    decreases k
  {
    hide Accept, ClashesWith, EntryOk, FromEntries, StoredEntries;
    if k == 0 {
      NothingStored(entries, single, actions, platform);
    } else {
      ReadSoFar(entries, single, actions, platform, k - 1);
      EntriesPush(entries, k - 1);
      var e := Stored(entries[k - 1].0, entries[k - 1].1);
      AcceptPush(StoredEntries(entries[..k - 1]), e, actions, Preferences(map[], single), platform);
      OneEntry(entries[k - 1], actions, FromEntries(entries[..k - 1], single), platform);
      assert !ClashesAt(entries, single, actions, k - 1);
    }
  }

  lemma NothingStored(entries: seq<(string, Option<string>)>, single: bool, actions: seq<Action>, platform: Platform)
    ensures AcceptAll(StoredEntries(entries[..0]), actions, Preferences(map[], single), platform) == FromEntries(entries[..0], single)
  {
    assert entries[..0] == [] && StoredEntries([]) == [];
  }

  /** Reading entries touches no override but theirs. */
  lemma {:induction false} OthersStay(
    entries: seq<(string, Option<string>)>, single: bool, actions: seq<Action>, platform: Platform, k: nat, n: nat)
    requires UniqueIds(actions) && AreEntries(entries, actions, platform) && k < n <= |entries|
    requires entries[k].0 !in AcceptAll(StoredEntries(entries[..k + 1]), actions, Preferences(map[], single), platform).overrides
    ensures entries[k].0 !in AcceptAll(StoredEntries(entries[..n]), actions, Preferences(map[], single), platform).overrides
    decreases n
  {
    hide Accept, ClashesWith, EntryOk, StoredEntries;
    if n > k + 1 {
      OthersStay(entries, single, actions, platform, k, n - 1);
      EntriesPush(entries, n - 1);
      var e, start := Stored(entries[n - 1].0, entries[n - 1].1), Preferences(map[], single);
      AcceptPush(StoredEntries(entries[..n - 1]), e, actions, start, platform);
      OneEntry(entries[n - 1], actions, AcceptAll(StoredEntries(entries[..n - 1]), actions, start, platform), platform);
    }
  }

  lemma {:induction false} EntriesAreKeys(entries: seq<(string, Option<string>)>, single: bool, k: nat)
    requires k < |entries|
    ensures entries[k].0 in FromEntries(entries, single).overrides
  {
    if k < |entries| - 1 {
      EntriesAreKeys(entries[..|entries| - 1], single, k);
    }
  }

  lemma {:induction false} EntriesHaveNoOther(entries: seq<(string, Option<string>)>, single: bool, id: string)
    requires forall i :: 0 <= i < |entries| ==> entries[i].0 != id
    ensures id !in FromEntries(entries, single).overrides
  {
    if entries != [] {
      EntriesHaveNoOther(entries[..|entries| - 1], single, id);
    }
  }

  lemma FirstClash(entries: seq<(string, Option<string>)>, single: bool, actions: seq<Action>, n: nat) returns (k: nat)
    requires n < |entries| && ClashesAt(entries, single, actions, n)
    ensures k <= n && ClashesAt(entries, single, actions, k) && forall i :: 0 <= i < k ==> !ClashesAt(entries, single, actions, i)
  {
    hide ClashesAt;
    k := 0;
    while !ClashesAt(entries, single, actions, k)
      invariant k <= n && forall i :: 0 <= i < k ==> !ClashesAt(entries, single, actions, i)
      decreases n - k
    {
      k := k + 1;
    }
  }

  /** Stored preferences are read back as they were exactly when no entry clashes at its turn. */
  lemma LoadsBackExactly(entries: seq<(string, Option<string>)>, single: bool, actions: seq<Action>, platform: Platform)
    requires UniqueIds(actions) && AreEntries(entries, actions, platform)
    ensures Loaded(entries, single, actions, platform) == FromEntries(entries, single)
            <==> forall k :: !ClashesAt(entries, single, actions, k)
  {
    hide ClashesAt, AcceptAll, FromEntries, StoredEntries, EntryOk;
    assert entries[..|entries|] == entries;
    if n :| 0 <= n < |entries| && ClashesAt(entries, single, actions, n) {
      var k := FirstClash(entries, single, actions, n);
      ClashIsLost(entries, single, actions, platform, k);
      EntriesAreKeys(entries, single, k);
    } else {
      forall k | ClashesAt(entries, single, actions, k)
        ensures 0 <= k < |entries|
      {
        ClashesInside(entries, single, actions, k);
      }
      ReadSoFar(entries, single, actions, platform, |entries|);
    }
  }

  lemma ClashesInside(entries: seq<(string, Option<string>)>, single: bool, actions: seq<Action>, k: int)
    requires ClashesAt(entries, single, actions, k)
    ensures 0 <= k < |entries|
  {
  }

  /** The first entry that clashes is not read. */
  lemma ClashIsLost(entries: seq<(string, Option<string>)>, single: bool, actions: seq<Action>, platform: Platform, k: nat)
    requires UniqueIds(actions) && AreEntries(entries, actions, platform)
    requires ClashesAt(entries, single, actions, k) && forall i :: 0 <= i < k ==> !ClashesAt(entries, single, actions, i)
    ensures k < |entries| && entries[k].0 !in Loaded(entries, single, actions, platform).overrides
  {
    hide Accept, ClashesWith, EntryOk, FromEntries, StoredEntries;
    ReadSoFar(entries, single, actions, platform, k);
    EntriesPush(entries, k);
    AcceptPush(StoredEntries(entries[..k]), Stored(entries[k].0, entries[k].1), actions, Preferences(map[], single), platform);
    OneEntry(entries[k], actions, FromEntries(entries[..k], single), platform);
    EntriesHaveNoOther(entries[..k], single, entries[k].0);
    OthersStay(entries, single, actions, platform, k, |entries|);
    assert entries[..|entries|] == entries;
  }

  /* ----- Two actions that trade their keys ----- */

  /** Both have default keys that are not kept and do not collide, and both can be active at once. */
  ghost predicate CanTrade(a: Action, b: Action, platform: Platform) {
    && a.id != b.id && ContextsOverlap(a, b) && HasPlainDefault(a, platform) && HasPlainDefault(b, platform)
    && !Collide(DefaultOf(a).steps, DefaultOf(b).steps)
  }

  ghost predicate HasPlainDefault(a: Action, platform: Platform) {
    && a.defaultBinding.Some? && ParseBinding(a.defaultBinding.value).Some?
    && !IsReserved(ParseBinding(a.defaultBinding.value).value.canonical, platform)
  }

  ghost function DefaultOf(a: Action): ParsedBinding
    requires a.defaultBinding.Some? && ParseBinding(a.defaultBinding.value).Some?
  {
    ParseBinding(a.defaultBinding.value).value
  }

  /** The override of `a` by the keys that `b` has by default. */
  ghost function Takes(a: Action, b: Action): (string, Option<string>)
    requires b.defaultBinding.Some? && ParseBinding(b.defaultBinding.value).Some?
  {
    (a.id, Some(DefaultOf(b).canonical))
  }

  lemma EffectiveTaken(a: Action, b: Action, preferences: Preferences)
    requires b.defaultBinding.Some? && ParseBinding(b.defaultBinding.value).Some?
    requires a.id in preferences.overrides && preferences.overrides[a.id] == Some(DefaultOf(b).canonical)
    ensures EffectiveOf(a, preferences) == Some(DefaultOf(b))
  {
    hide ParseBinding;
    CanonicalParsesBack(b.defaultBinding.value);
    NothingIsNoBinding();
  }

  lemma EffectiveDefault(a: Action, preferences: Preferences)
    requires a.defaultBinding.Some? && ParseBinding(a.defaultBinding.value).Some? && a.id !in preferences.overrides
    ensures EffectiveOf(a, preferences) == Some(DefaultOf(a))
  {
    hide ParseBinding;
    NothingIsNoBinding();
  }

  lemma CollideItself(steps: seq<Chord>)
    ensures Collide(steps, steps)
  {
  }

  lemma TakingIsOk(a: Action, b: Action, actions: seq<Action>, platform: Platform)
    requires UniqueIds(actions) && a in actions && HasPlainDefault(b, platform)
    ensures EntryOk(Takes(a, b), actions, platform)
  {
    hide ParseBinding, IsReserved, FindAction;
    var i :| 0 <= i < |actions| && actions[i] == a;
    assert IsActionAt(actions, i, a.id);
    FindActionIs(actions, a.id, i);
    CanonicalParsesBack(b.defaultBinding.value);
  }

  /** Taking the keys of an action that has them clashes. */
  lemma TakingClashes(a: Action, b: Action, actions: seq<Action>, platform: Platform, preferences: Preferences)
    requires CanTrade(a, b, platform) && (actions == [a, b] || actions == [b, a])
    requires preferences.overrides == map[a.id := Some(DefaultOf(b).canonical)]
    ensures ClashesWith(actions, preferences, a.id)
  {
    hide ParseBinding, Collide, ContextsOverlap, EffectiveOf, IsReserved;
    EffectiveTaken(a, b, preferences);
    EffectiveDefault(b, preferences);
    CollideItself(DefaultOf(b).steps);
    OverlapIsMutual(a, b);
    assert Clash(actions[0], actions[1], preferences);
  }

  lemma TakingIsDropped(a: Action, b: Action, actions: seq<Action>, platform: Platform, single: bool)
    requires CanTrade(a, b, platform) && (actions == [a, b] || actions == [b, a])
    ensures Accept(Stored(a.id, Takes(a, b).1), actions, Preferences(map[], single), platform) == Preferences(map[], single)
  {
    hide ParseBinding, Accept, ClashesWith, EntryOk, Collide, ContextsOverlap, IsReserved;
    TakingIsOk(a, b, actions, platform);
    TakingClashes(a, b, actions, platform, Preferences(map[a.id := Some(DefaultOf(b).canonical)], single));
    OneEntry(Takes(a, b), actions, Preferences(map[], single), platform);
  }

  lemma TradeIsMutual(a: Action, b: Action, platform: Platform)
    requires CanTrade(a, b, platform)
    ensures CanTrade(b, a, platform)
  {
    hide ParseBinding, ChordCanonical, IsReserved;
  }

  /**
   * Two actions that traded their default keys are stored, and nothing of it is read back, in whatever order the
   * entries are.
   */
  lemma TradeIsLost(a: Action, b: Action, platform: Platform, single: bool)
    requires CanTrade(a, b, platform)
    ensures AreEntries([Takes(a, b), Takes(b, a)], [a, b], platform)
    ensures ConflictFree([a, b], FromEntries([Takes(a, b), Takes(b, a)], single))
    ensures Loaded([Takes(a, b), Takes(b, a)], single, [a, b], platform) == Preferences(map[], single)
    ensures Loaded([Takes(b, a), Takes(a, b)], single, [a, b], platform) == Preferences(map[], single)
  {
    hide ParseBinding, Accept, EntryOk, Collide, ContextsOverlap, IsReserved;
    TradeIsMutual(a, b, platform);
    TakingIsOk(a, b, [a, b], platform);
    TakingIsOk(b, a, [a, b], platform);
    TakingIsDropped(a, b, [a, b], platform, single);
    TakingIsDropped(b, a, [a, b], platform, single);
    NothingOfTwo([Takes(a, b), Takes(b, a)], [a, b], platform, single);
    NothingOfTwo([Takes(b, a), Takes(a, b)], [a, b], platform, single);
    TradedIsConflictFree(a, b, platform, single);
  }

  lemma NothingOfTwo(entries: seq<(string, Option<string>)>, actions: seq<Action>, platform: Platform, single: bool)
    requires |entries| == 2
    requires forall k :: 0 <= k < 2 ==>
               Accept(Stored(entries[k].0, entries[k].1), actions, Preferences(map[], single), platform) == Preferences(map[], single)
    ensures Loaded(entries, single, actions, platform) == Preferences(map[], single)
  {
    hide Accept;
    var e, f := Stored(entries[0].0, entries[0].1), Stored(entries[1].0, entries[1].1);
    assert StoredEntries(entries) == [] + [e] + [f];
    AcceptPush([], e, actions, Preferences(map[], single), platform);
    AcceptPush([] + [e], f, actions, Preferences(map[], single), platform);
  }

  lemma TwoEntries(x: (string, Option<string>), y: (string, Option<string>), single: bool)
    ensures FromEntries([x, y], single) == Preferences(map[x.0 := x.1, y.0 := y.1], single)
  {
    assert [x, y][..1] == [x] && [x][..0] == [];
    assert FromEntries([x], single) == Preferences(map[x.0 := x.1], single);
  }

  lemma TradedIsConflictFree(a: Action, b: Action, platform: Platform, single: bool)
    requires CanTrade(a, b, platform)
    ensures ConflictFree([a, b], FromEntries([Takes(a, b), Takes(b, a)], single))
  {
    hide ParseBinding, ContextsOverlap, EffectiveOf, IsReserved, Collide;
    var traded := FromEntries([Takes(a, b), Takes(b, a)], single);
    TwoEntries(Takes(a, b), Takes(b, a), single);
    EffectiveTaken(a, b, traded);
    EffectiveTaken(b, a, traded);
    CollideIsMutual(DefaultOf(a).steps, DefaultOf(b).steps);
  }

  lemma CollideIsMutual(a: seq<Chord>, b: seq<Chord>)
    ensures Collide(a, b) <==> Collide(b, a)
  {
    hide ChordCanonical;
  }

  /** The remaps by which two actions trade their keys: one is unbound, the other takes its keys, and it takes the other's. */
  ghost function Trade(a: Action, b: Action): seq<Edit>
    requires a.defaultBinding.Some? && b.defaultBinding.Some?
  {
    [Remap(a.id, None), Remap(b.id, Some(a.defaultBinding.value)), Remap(a.id, Some(b.defaultBinding.value))]
  }

  lemma RemapTaken(a: Action, b: Action, actions: seq<Action>, preferences: Preferences, platform: Platform)
    requires UniqueIds(actions) && a in actions && HasPlainDefault(b, platform)
    requires !ClashesWith(actions, preferences.(overrides := preferences.overrides[a.id := Takes(a, b).1]), a.id)
    ensures Apply(preferences, Remap(a.id, Some(b.defaultBinding.value)), actions, platform) ==
            preferences.(overrides := preferences.overrides[a.id := Takes(a, b).1])
  {
    hide ParseBinding, Validate, ClashesWith, IsReserved, IsKept, IsDefaultOf;
    var i :| 0 <= i < |actions| && actions[i] == a;
    assert IsActionAt(actions, i, a.id);
    KeptAre(DefaultOf(b).canonical, platform);
    RemapsExactly(a.id, Some(b.defaultBinding.value), actions, preferences, platform, i);
  }

  lemma RemapUnbinds(a: Action, actions: seq<Action>, preferences: Preferences, platform: Platform)
    requires UniqueIds(actions) && a in actions
    ensures Apply(preferences, Remap(a.id, None), actions, platform) == preferences.(overrides := preferences.overrides[a.id := None])
  {
    hide Validate, ClashesWith;
    var i :| 0 <= i < |actions| && actions[i] == a;
    assert IsActionAt(actions, i, a.id);
    RemapsExactly(a.id, None, actions, preferences, platform, i);
  }

  lemma UnboundClashesNot(a: Action, b: Action, preferences: Preferences, id: string)
    requires EffectiveOf(a, preferences) == None
    ensures !ClashesWith([a, b], preferences, id)
  {
    hide EffectiveOf, Collide, ContextsOverlap;
  }

  lemma ConflictFreeClashesNot(actions: seq<Action>, preferences: Preferences, id: string)
    requires ConflictFree(actions, preferences)
    ensures !ClashesWith(actions, preferences, id)
  {
    hide Clash;
  }

  /** Trading is accepted step by step, and leaves what is stored. */
  lemma TradeIsAccepted(a: Action, b: Action, platform: Platform)
    requires CanTrade(a, b, platform)
    ensures ApplyAll(DEFAULT_PREFERENCES, Trade(a, b), [a, b], platform) == FromEntries([Takes(a, b), Takes(b, a)], true)
  {
    hide ParseBinding, Apply, ClashesWith, IsReserved, ContextsOverlap, Collide, ConflictFree, Canonicals;
    var actions, edits := [a, b], Trade(a, b);
    var p1 := Preferences(map[a.id := None], true);
    var p2 := Preferences(map[a.id := None, b.id := Takes(b, a).1], true);
    var p3 := FromEntries([Takes(a, b), Takes(b, a)], true);
    TwoEntries(Takes(a, b), Takes(b, a), true);
    RemapUnbinds(a, actions, DEFAULT_PREFERENCES, platform);
    UnboundClashesNot(a, b, p2, b.id);
    RemapTaken(b, a, actions, p1, platform);
    TradedIsConflictFree(a, b, platform, true);
    ConflictFreeClashesNot(actions, p3, a.id);
    assert p3.overrides == p2.overrides[a.id := Takes(a, b).1];
    RemapTaken(a, b, actions, p2, platform);
    ThreeEdits(edits[0], edits[1], edits[2], actions, platform);
  }

  lemma ThreeEdits(x: Edit, y: Edit, z: Edit, actions: seq<Action>, platform: Platform)
    ensures ApplyAll(DEFAULT_PREFERENCES, [x, y, z], actions, platform) ==
            Apply(Apply(Apply(DEFAULT_PREFERENCES, x, actions, platform), y, actions, platform), z, actions, platform)
  {
    hide Apply;
    assert [x, y, z][..2] == [x, y] && [x, y][..1] == [x] && [x][..0] == [];
    assert ApplyAll(DEFAULT_PREFERENCES, [x], actions, platform) == Apply(DEFAULT_PREFERENCES, x, actions, platform);
    assert ApplyAll(DEFAULT_PREFERENCES, [x, y], actions, platform) ==
           Apply(Apply(DEFAULT_PREFERENCES, x, actions, platform), y, actions, platform);
  }
}
