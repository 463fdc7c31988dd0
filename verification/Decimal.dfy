/** Decimal text of a natural number, as JavaScript prints a non-negative safe integer. */
module Decimal {
  predicate IsDigit(c: char) {
    '0' <= c <= '9'
  }

  function DigitChar(d: nat): (c: char)
    requires d < 10
    ensures IsDigit(c) && c as int == '0' as int + d
  {
    ('0' as int + d) as char
  }

  function Dec(n: nat): (s: string)
    ensures |s| > 0 && forall i :: 0 <= i < |s| ==> IsDigit(s[i])
  {
    if n < 10 then [DigitChar(n)] else Dec(n / 10) + [DigitChar(n % 10)]
  }

  ghost function Undec(s: string): int
  {
    if s == [] then 0 else 10 * Undec(s[..|s| - 1]) + (s[|s| - 1] as int - '0' as int)
  }

  lemma {:induction false} DecRoundTrip(n: nat)
    ensures Undec(Dec(n)) == n
  {
    if n < 10 {
      assert Dec(n)[..0] == [];
    } else {
      var front := Dec(n / 10);
      var all := front + [DigitChar(n % 10)];
      assert all[..|all| - 1] == front;
      DecRoundTrip(n / 10);
    }
  }

  lemma DecInjective(a: nat, b: nat)
    requires Dec(a) == Dec(b)
    ensures a == b
  {
    DecRoundTrip(a);
    DecRoundTrip(b);
  }

  lemma LeadingDigits(n: nat, rest: string)
    ensures forall i :: 0 <= i < |Dec(n)| ==> IsDigit((Dec(n) + rest)[i])
    ensures rest != [] ==> (Dec(n) + rest)[|Dec(n)|] == rest[0]
  {
  }

  lemma DecLength(a: nat, b: nat, r: string, t: string)
    requires Dec(a) + r == Dec(b) + t
    requires r == [] || !IsDigit(r[0])
    ensures |Dec(b)| <= |Dec(a)|
  {
    LeadingDigits(b, t);
    LeadingDigits(a, r);
  }

  /** Decimal texts followed by a unit that is no digit are read back unambiguously. */
  lemma DecPrefix(a: nat, b: nat, r: string, t: string)
    requires Dec(a) + r == Dec(b) + t
    requires r == [] || !IsDigit(r[0])
    requires t == [] || !IsDigit(t[0])
    ensures a == b && r == t
  {
    var whole := Dec(a) + r;
    DecLength(a, b, r, t);
    DecLength(b, a, t, r);
    assert Dec(a) == whole[..|Dec(a)|] == Dec(b);
    assert r == whole[|Dec(a)|..] == t;
    DecInjective(a, b);
  }
}
