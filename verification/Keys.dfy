/** apps/web/src/actions/keys.ts: key bindings as text and as steps. */
module Keys {
  import opened Wrappers
  import opened Casing
  import Utf16

  /** One simultaneous key press; the modifiers are in canonical order. */
  datatype Chord = Chord(modifiers: seq<string>, key: string)

  datatype ParsedBinding = ParsedBinding(steps: seq<Chord>, canonical: string)

  const MODIFIER_ORDER: seq<string> := ["mod", "ctrl", "alt", "shift", "meta"]

  /* ----- Keys ----- */

  const EDITING_KEYS: set<string> := {"enter", "escape", "space", "tab", "backspace", "delete", "plus"}
  const MOVING_KEYS: set<string> :=
    {"arrowup", "arrowdown", "arrowleft", "arrowright", "home", "end", "pageup", "pagedown"}
  const FUNCTION_KEYS: set<string> := {"f1", "f2", "f3", "f4", "f5", "f6", "f7", "f8", "f9", "f10", "f11", "f12"}

  /** The characters of the punctuation keys: all of ASCII's but `+`. */
  predicate IsPunctuationChar(c: char) {
    ('!' <= c <= '/' || ':' <= c <= '@' || '[' <= c <= '`' || '{' <= c <= '~') && c != '+'
  }

  predicate IsPunctuationKey(key: string) {
    |key| == 1 && IsPunctuationChar(key[0])
  }

  predicate IsLetterOrDigit(key: string) {
    |key| == 1 && ('a' <= key[0] <= 'z' || '0' <= key[0] <= '9')
  }

  predicate IsNamedKey(key: string) {
    key in EDITING_KEYS || key in MOVING_KEYS || key in FUNCTION_KEYS
  }

  predicate IsBindableKey(key: string) {
    IsLetterOrDigit(key) || IsPunctuationKey(key) || IsNamedKey(key)
  }

  /* ----- Text ----- */

  predicate IsSpace(c: char) {
    c as int < 0x1_0000 && Utf16.IsWhitespace(c as int)
  }

  /** split(separator): the parts between separators, at least one. */
  function Split(s: string, separator: char): (parts: seq<string>)
    ensures parts != []
  {
    if s == "" then [""]
    else
      var rest := Split(s[1..], separator);
      if s[0] == separator then [""] + rest else [[s[0]] + rest[0]] + rest[1..]
  }

  /** The non-empty parts between white space: those of trim().split(/\s+/). */
  function Words(s: string): seq<string> {
    if s == "" then []
    else if IsSpace(s[0]) then Words(s[1..])
    else
      var n := WordLength(s);
      [s[..n]] + Words(s[n..])
  }

  function WordLength(s: string): (n: nat)
    requires s != "" && !IsSpace(s[0])
    ensures 0 < n <= |s|
    ensures forall i :: 0 <= i < n ==> !IsSpace(s[i])
    ensures n < |s| ==> IsSpace(s[n])
  {
    if |s| == 1 || IsSpace(s[1]) then 1 else 1 + WordLength(s[1..])
  }

  function Join(parts: seq<string>, separator: string): string {
    if parts == [] then ""
    else if |parts| == 1 then parts[0]
    else parts[0] + separator + Join(parts[1..], separator)
  }

  /* ----- Parsing ----- */

  function Alias(key: string): string {
    match key
    case "esc" => "escape"
    case "return" => "enter"
    case "up" => "arrowup"
    case "down" => "arrowdown"
    case "left" => "arrowleft"
    case "right" => "arrowright"
    case "del" => "delete"
    case " " => "space"
    case "spacebar" => "space"
    case "+" => "plus"
    case _ => key
  }

  /** The modifiers given, in canonical order and each once. */
  function Ordered(modifiers: seq<string>): seq<string> {
    Pick(MODIFIER_ORDER, modifiers)
  }

  function Pick(order: seq<string>, modifiers: seq<string>): seq<string> {
    if order == [] then []
    else if order[0] in modifiers then [order[0]] + Pick(order[1..], modifiers)
    else Pick(order[1..], modifiers)
  }

  function ModifierOf(part: string): string {
    var lowered := Lower(part);
    if lowered == "cmd" || lowered == "command" then "mod" else lowered
  }

  /** The modifiers of the parts; None for an unknown or a repeated one. */
  function Modifiers(parts: seq<string>): Option<seq<string>> {
    if parts == [] then Some([])
    else
      var before, last := Modifiers(parts[..|parts| - 1]), ModifierOf(parts[|parts| - 1]);
      if before.None? || last !in MODIFIER_ORDER || last in before.value then None else Some(before.value + [last])
  }

  /** `mod` already means Command or Control; a punctuation key already implies Shift. */
  predicate Agree(modifiers: seq<string>, key: string) {
    && !("mod" in modifiers && ("ctrl" in modifiers || "meta" in modifiers))
    && !(IsPunctuationKey(key) && "shift" in modifiers)
  }

  function ChordOf(token: string): Option<Chord> {
    var parts := if token == "+" then ["plus"] else Split(token, '+');
    var rawKey, modifiers := parts[|parts| - 1], Modifiers(parts[..|parts| - 1]);
    var key := Alias(Lower(rawKey));
    if token == "" || rawKey == "" || modifiers.None? || !IsBindableKey(key) || !Agree(modifiers.value, key) then None
    else Some(Chord(Ordered(modifiers.value), key))
  }

  function ChordsOf(tokens: seq<string>): Option<seq<Chord>> {
    if tokens == [] then Some([])
    else
      var first, rest := ChordOf(tokens[0]), ChordsOf(tokens[1..]);
      if first.None? || rest.None? then None else Some([first.value] + rest.value)
  }

  predicate IsSequenceStep(chord: Chord) {
    chord.modifiers == [] && (IsLetterOrDigit(chord.key) || IsPunctuationKey(chord.key))
  }

  function ChordCanonical(chord: Chord): string {
    Join(Ordered(chord.modifiers) + [chord.key], "+")
  }

  function Canonicals(steps: seq<Chord>): seq<string> {
    seq(|steps|, i requires 0 <= i < |steps| => ChordCanonical(steps[i]))
  }

  /** What a binding's steps must be: one chord, or two or three plain keys. */
  predicate StepsOk(steps: seq<Chord>) {
    1 <= |steps| <= 3 && (|steps| > 1 ==> forall i :: 0 <= i < |steps| ==> IsSequenceStep(steps[i]))
  }

  /** parseBinding; None where it throws. */
  function ParseBinding(input: string): Option<ParsedBinding> {
    var steps := ChordsOf(Words(input));
    if steps.None? || !StepsOk(steps.value) then None
    else Some(ParsedBinding(steps.value, Join(Canonicals(steps.value), " ")))
  }

  /** parseChord, part by part. */
  method ParseChord(token: string) returns (chord: Option<Chord>)
    ensures chord == ChordOf(token)
  {
    hide Split, Pick, Alias, Lower, Modifiers, IsBindableKey, Agree;
    if token == "" {
      return None;
    }
    var parts := if token == "+" then ["plus"] else Split(token, '+');
    var rawKey := parts[|parts| - 1];
    if rawKey == "" {
      return None;
    }
    var modifiers := ParseModifiers(parts[..|parts| - 1]);
    if modifiers.None? {
      return None;
    }
    var key := Alias(Lower(rawKey));
    if !IsBindableKey(key) || !Agree(modifiers.value, key) {
      return None;
    }
    chord := Some(Chord(Ordered(modifiers.value), key));
  }

  method ParseModifiers(parts: seq<string>) returns (modifiers: Option<seq<string>>)
    ensures modifiers == Modifiers(parts)
  {
    hide ModifierOf;
    var found: seq<string> := [];
    assert parts[..0] == [];
    for i := 0 to |parts|
      invariant Modifiers(parts[..i]) == Some(found)
    {
      assert parts[..i + 1][..i] == parts[..i];
      var modifier := ModifierOf(parts[i]);
      if modifier !in MODIFIER_ORDER || modifier in found {
        NoModifiersLater(parts, i + 1);
        return None;
      }
      found := found + [modifier];
    }
    assert parts[..|parts|] == parts;
    modifiers := Some(found);
  }

  lemma {:induction false} NoModifiersLater(parts: seq<string>, i: nat)
    requires i <= |parts| && Modifiers(parts[..i]).None?
    ensures Modifiers(parts).None?
    decreases |parts|
  {
    if i == |parts| {
      assert parts[..i] == parts;
    } else {
      assert parts[..|parts| - 1][..i] == parts[..i];
      NoModifiersLater(parts[..|parts| - 1], i);
    }
  }
}
