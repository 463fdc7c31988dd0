/** String.prototype.toUpperCase and toLowerCase, as far as ASCII letters come into it. */
module Casing {
  /** toUpperCase() of one character, as far as the result can contain ASCII letters only. */
  function UpperChar(c: char): string {
    if 'a' <= c <= 'z' then [(c as int - 32) as char]
    else
      match c as int
      case 0x131 => "I"
      case 0x17F => "S"
      case 0xDF => "SS"
      case 0xFB00 => "FF"
      case 0xFB01 => "FI"
      case 0xFB02 => "FL"
      case 0xFB03 => "FFI"
      case 0xFB04 => "FFL"
      case 0xFB05 => "ST"
      case 0xFB06 => "ST"
      case _ => [c]
  }

  function Upper(s: string): string {
    if s == "" then "" else UpperChar(s[0]) + Upper(s[1..])
  }

  /** toLowerCase() of one character, as far as the result can contain ASCII characters. */
  function LowerChar(c: char): string {
    if 'A' <= c <= 'Z' then [(c as int + 32) as char]
    else if c as int == 0x212A then "k"
    else if c as int == 0x130 then ['i', 0x307 as char]
    else [c]
  }

  function Lower(s: string): string {
    if s == "" then "" else LowerChar(s[0]) + Lower(s[1..])
  }

  predicate IsLower(s: string) {
    forall i :: 0 <= i < |s| ==> LowerChar(s[i]) == [s[i]]
  }

  lemma {:induction false} LowerIsLower(s: string)
    ensures IsLower(Lower(s))
  {
    if s != "" {
      LowerIsLower(s[1..]);
    }
  }

  lemma {:induction false} LowerKeeps(s: string)
    requires IsLower(s)
    ensures Lower(s) == s
  {
    if s != "" {
      LowerKeeps(s[1..]);
      assert s == [s[0]] + s[1..];
    }
  }

  predicate IsAscii(s: string) {
    forall i :: 0 <= i < |s| ==> s[i] as int < 0x80
  }

  /** A capital and the small letter in the same place of the alphabet. */
  predicate ArePair(capital: char, small: char) {
    'A' <= capital <= 'Z' && 'a' <= small <= 'z' && capital as int - 'A' as int == small as int - 'a' as int
  }

  /** Of an ASCII text only the capitals change, each to its small letter. */
  lemma {:induction false} LowerExactly(s: string)
    requires IsAscii(s)
    ensures |Lower(s)| == |s|
    ensures forall i :: 0 <= i < |s| ==> if 'A' <= s[i] <= 'Z' then ArePair(s[i], Lower(s)[i]) else Lower(s)[i] == s[i]
  {
    if s != "" {
      LowerExactly(s[1..]);
    }
  }

  /** Of an ASCII text only the small letters change, each to its capital. */
  lemma {:induction false} UpperExactly(s: string)
    requires IsAscii(s)
    ensures |Upper(s)| == |s|
    ensures forall i :: 0 <= i < |s| ==> if 'a' <= s[i] <= 'z' then ArePair(Upper(s)[i], s[i]) else Upper(s)[i] == s[i]
  {
    if s != "" {
      UpperExactly(s[1..]);
    }
  }

  /** The other characters whose capitals are ASCII letters, and those whose small letters begin with one. */
  lemma SpecialsExactly()
    ensures Upper("\U{131}\U{17F}") == "IS" && Upper("\U{DF}") == "SS"
    ensures Upper("\U{FB00}") == "FF" && Upper("\U{FB01}") == "FI" && Upper("\U{FB02}") == "FL"
    ensures Upper("\U{FB03}") == "FFI" && Upper("\U{FB04}") == "FFL"
    ensures Upper("\U{FB05}") == "ST" && Upper("\U{FB06}") == "ST"
    ensures Lower("\U{212A}") == "k" && Lower("\U{130}") == "i\U{307}"
  {
  }
}
