/** packages/db/src/rate-limit.ts: the token bucket under a clock that may go back. */
module RateClocks {
  import opened Numbers
  import opened RateLimit

  /* ----- Runs ----- */

  /** The bucket is looked at when the clock shows `now`, perhaps to take a token. */
  datatype Reading = Reading(now: int, wants: bool)

  predicate Gives(b: Bucket, r: Reading) {
    r.wants && Refill(b, r.now).tokens >= 1.0
  }

  function After(b: Bucket, r: Reading): Bucket {
    if Gives(b, r) then Take(Refill(b, r.now)) else Refill(b, r.now)
  }

  function AfterAll(b: Bucket, readings: seq<Reading>): Bucket
    decreases |readings|
  {
    if readings == [] then b else AfterAll(After(b, readings[0]), readings[1..])
  }

  /** Tokens taken in all. */
  function Taken(b: Bucket, readings: seq<Reading>): nat
    decreases |readings|
  {
    if readings == [] then 0
    else (if Gives(b, readings[0]) then 1 else 0) + Taken(After(b, readings[0]), readings[1..])
  }

  /** Tokens taken while the clock showed times from `from` to `to`. */
  function TakenIn(b: Bucket, readings: seq<Reading>, from: int, to: int): nat
    decreases |readings|
  {
    if readings == [] then 0
    else
      var here := Gives(b, readings[0]) && from <= readings[0].now <= to;
      (if here then 1 else 0) + TakenIn(After(b, readings[0]), readings[1..], from, to)
  }

  /** How far the clock goes on, and how far it goes back, from reading to reading, starting at `at`. */
  function Forward(at: int, readings: seq<Reading>): nat
    decreases |readings|
  {
    if readings == [] then 0 else Max(0, readings[0].now - at) + Forward(readings[0].now, readings[1..])
  }

  function Backward(at: int, readings: seq<Reading>): nat
    decreases |readings|
  {
    if readings == [] then 0 else Max(0, at - readings[0].now) + Backward(readings[0].now, readings[1..])
  }

  lemma AfterOk(b: Bucket, r: Reading)
    requires b.Ok()
    ensures After(b, r).Ok() && After(b, r).at == r.now
    ensures After(b, r).capacity == b.capacity && After(b, r).ratePerSecond == b.ratePerSecond
    ensures After(b, r).tokens <= b.tokens + Credit(b.ratePerSecond, Max(0, r.now - b.at)) - if Gives(b, r) then 1.0 else 0.0
  {
    hide Credit;
    RefillOk(b, r.now);
  }

  /* ----- What a clock that goes back costs ----- */

  /** Whatever the clock does, tokens come from its forward steps alone. */
  lemma {:induction false} TokensBound(b: Bucket, readings: seq<Reading>)
    requires b.Ok()
    ensures AfterAll(b, readings).Ok()
    ensures Taken(b, readings) as real + AfterAll(b, readings).tokens
            <= b.tokens + Credit(b.ratePerSecond, Forward(b.at, readings))
    decreases |readings|
  {
    hide Credit, After, Gives;
    if readings == [] {
      CreditGrows(b.ratePerSecond, 0);
    } else {
      var r := readings[0];
      AfterOk(b, r);
      TokensBound(After(b, r), readings[1..]);
      CreditAdds(b.ratePerSecond, Max(0, r.now - b.at), Forward(r.now, readings[1..]));
    }
  }

  /** `taken` tokens were taken in the window so far, and the clock went back `back` in all. */
  ghost predicate Within(b: Bucket, taken: nat, back: nat, from: int, to: int) {
    && b.Ok()
    && (taken > 0 ==> taken as real + b.tokens <= WindowBudget(b, b.at - from + back))
    && taken as real <= WindowBudget(b, to - from + back)
  }

  lemma StepStaysWithin(b: Bucket, r: Reading, taken: nat, back: nat, from: int, to: int)
    requires Within(b, taken, back, from, to) && from <= to
    ensures var here := Gives(b, r) && from <= r.now <= to;
            Within(After(b, r), if here then taken + 1 else taken, back + Max(0, b.at - r.now), from, to)
  {
    hide Credit;
    var next := back + Max(0, b.at - r.now);
    AfterOk(b, r);
    RefillOk(b, r.now);
    assert b.at - from + back + Max(0, r.now - b.at) == r.now - from + next;
    CreditAdds(b.ratePerSecond, b.at - from + back, Max(0, r.now - b.at));
    MoreTime(b, to - from + back, to - from + next);
    if from <= r.now <= to {
      MoreTime(b, 0, r.now - from + next);
      MoreTime(b, r.now - from + next, to - from + next);
    }
  }

  lemma {:induction false} RunStaysWithin(b: Bucket, readings: seq<Reading>, taken: nat, back: nat, from: int, to: int)
    requires Within(b, taken, back, from, to) && from <= to
    ensures (taken + TakenIn(b, readings, from, to)) as real <= WindowBudget(b, to - from + back + Backward(b.at, readings))
    decreases |readings|
  {
    hide Credit, After, Gives, Within;
    if readings == [] {
      WithinBounds(b, taken, back, from, to);
    } else {
      var r := readings[0];
      WithinBounds(b, taken, back, from, to);
      AfterOk(b, r);
      StepStaysWithin(b, r, taken, back, from, to);
      RunStaysWithin(After(b, r), readings[1..], if Gives(b, r) && from <= r.now <= to then taken + 1 else taken,
                     back + Max(0, b.at - r.now), from, to);
    }
  }

  lemma WithinBounds(b: Bucket, taken: nat, back: nat, from: int, to: int)
    requires Within(b, taken, back, from, to)
    ensures b.Ok() && taken as real <= WindowBudget(b, to - from + back)
  {
  }

  /** In any window of any run, every millisecond the clock goes back costs at most a millisecond's tokens. */
  lemma BackwardStepsCost(b: Bucket, readings: seq<Reading>, from: int, to: int)
    requires b.Ok() && from <= to
    ensures TakenIn(b, readings, from, to) as real <= WindowBudget(b, to - from + Backward(b.at, readings))
  {
    hide Credit;
    MoreTime(b, 0, to - from);
    RunStaysWithin(b, readings, 0, 0, from, to);
  }

  /* ----- Runs that show the cost ----- */

  lemma {:induction false} RunAppend(b: Bucket, first: seq<Reading>, second: seq<Reading>, from: int, to: int)
    ensures AfterAll(b, first + second) == AfterAll(AfterAll(b, first), second)
    ensures TakenIn(b, first + second, from, to) ==
            TakenIn(b, first, from, to) + TakenIn(AfterAll(b, first), second, from, to)
    decreases |first|
  {
    hide After, Gives;
    if first == [] {
      assert first + second == second;
    } else {
      assert (first + second)[1..] == first[1..] + second;
      RunAppend(After(b, first[0]), first[1..], second, from, to);
    }
  }

  /** Take `n` tokens while the clock stands. */
  function Drain(at: int, n: nat): seq<Reading> {
    if n == 0 then [] else [Reading(at, true)] + Drain(at, n - 1)
  }

  lemma {:induction false} DrainTakes(b: Bucket, n: nat, from: int, to: int, rest: seq<Reading>)
    requires b.Ok() && n as real <= b.tokens && from <= b.at <= to
    ensures AfterAll(b, Drain(b.at, n)) == b.(tokens := b.tokens - n as real)
    ensures TakenIn(b, Drain(b.at, n), from, to) == n
    ensures Backward(b.at, Drain(b.at, n) + rest) == Backward(b.at, rest)
    decreases n
  {
    hide Credit;
    if n == 0 {
      assert Drain(b.at, 0) + rest == rest;
    } else {
      var all := Drain(b.at, n);
      RefillTwice(b, b.at);
      assert all[1..] == Drain(b.at, n - 1) && (all + rest)[1..] == Drain(b.at, n - 1) + rest;
      DrainTakes(Take(b), n - 1, from, to, rest);
    }
  }

  /** The clock goes on by `ms`, back by `d` and on again, and a token is asked for. */
  function Detour(at: int, ms: int, d: int): seq<Reading> {
    [Reading(at + ms, false), Reading(at + ms - d, false), Reading(at + ms, true)]
  }

  lemma DetourGives(b: Bucket, ms: nat, d: nat)
    requires b.Ok() && b.tokens + Credit(b.ratePerSecond, ms) < 1.0 <= b.tokens + Credit(b.ratePerSecond, ms + d)
    ensures TakenIn(b, Detour(b.at, ms, d), b.at, b.at + ms) == 1
    ensures Backward(b.at, Detour(b.at, ms, d)) == d
  {
    hide Credit;
    var run := Detour(b.at, ms, d);
    CreditGrows(b.ratePerSecond, ms);
    CreditGrows(b.ratePerSecond, d);
    CreditAdds(b.ratePerSecond, ms, d);
    var on := After(b, run[0]);
    assert on == b.(tokens := b.tokens + Credit(b.ratePerSecond, ms), at := b.at + ms);
    CreditGrows(b.ratePerSecond, 0);
    var back := After(on, run[1]);
    assert back == on.(at := b.at + ms - d);
    assert Gives(back, run[2]);
    var rest := run[1..];
    assert rest[0] == run[1] && rest[1..] == [run[2]] && [run[2]][1..] == [];
    assert TakenIn(After(back, run[2]), [], b.at, b.at + ms) == 0;
    assert TakenIn(back, [run[2]], b.at, b.at + ms) == 1;
    assert TakenIn(on, rest, b.at, b.at + ms) == 1;
    assert Backward(b.at + ms - d, [run[2]]) == 0;
    assert Backward(b.at + ms, rest) == d;
  }

  /** What is left of a full bucket when all whole tokens are taken. */
  function Rest(b: Bucket): real {
    b.capacity - b.capacity.Floor as real
  }

  /** From a full bucket: one token more than there is credit for, in a window of `ms` milliseconds. */
  lemma OneTooMany(b: Bucket, ms: nat, d: nat) returns (run: seq<Reading>)
    requires b.Ok() && b.tokens == b.capacity
    requires Rest(b) + Credit(b.ratePerSecond, ms) < 1.0 <= Rest(b) + Credit(b.ratePerSecond, ms + d)
    ensures Backward(b.at, run) == d && TakenIn(b, run, b.at, b.at + ms) as real > WindowBudget(b, ms)
  {
    hide Credit;
    var n := b.capacity.Floor;
    var detour := Detour(b.at, ms, d);
    run := Drain(b.at, n) + detour;
    DrainTakes(b, n, b.at, b.at + ms, detour);
    RunAppend(b, Drain(b.at, n), detour, b.at, b.at + ms);
    DetourGives(b.(tokens := b.tokens - n as real), ms, d);
  }

  /** The last millisecond at which a fraction is still less than a token. */
  lemma BeforeOne(rate: real, rest: real) returns (ms: nat)
    requires rate > 0.0 && 0.0 <= rest < 1.0
    ensures rest + Credit(rate, ms) < 1.0 <= rest + Credit(rate, ms + 1)
  {
    hide Credit, Ms;
    var missing := 1.0 - rest;
    MsGrows(rate, missing);
    var all := Ceil(Ms(rate, missing));
    ms := all - 1;
    CreditReaches(rate, ms, missing);
    CreditReaches(rate, ms + 1, missing);
  }

  lemma CreditReaches(rate: real, ms: int, tokens: real)
    requires rate > 0.0
    ensures Credit(rate, ms) >= tokens <==> ms as real >= Ms(rate, tokens)
  {
    hide Credit, Ms;
    var more := Credit(rate, ms) - tokens;
    MsOfCredit(rate, ms);
    MsAdds(rate, tokens, more);
    MsGrows(rate, more);
  }

  /**
   * A full bucket keeps its budget in every window of every run whose clock goes back at most `d` in all
   * exactly when `d` is 0: a single millisecond is enough to break it.
   */
  lemma ClockMustNotGoBack(b: Bucket, d: nat)
    requires b.Ok() && b.tokens == b.capacity
    ensures (forall run: seq<Reading>, from, to :: from <= to && Backward(b.at, run) <= d ==>
                                                     TakenIn(b, run, from, to) as real <= WindowBudget(b, to - from))
            <==> d == 0
  {
    hide Credit, TakenIn, Backward;
    if d == 0 {
      forall run: seq<Reading>, from, to | from <= to && Backward(b.at, run) <= d
        ensures TakenIn(b, run, from, to) as real <= WindowBudget(b, to - from)
      {
        BackwardStepsCost(b, run, from, to);
      }
    } else {
      var ms := BeforeOne(b.ratePerSecond, Rest(b));
      CreditAdds(b.ratePerSecond, ms + 1, d - 1);
      CreditGrows(b.ratePerSecond, d - 1);
      var run := OneTooMany(b, ms, d);
      var to := b.at + ms;
      assert to - b.at == ms;
    }
  }

  /**
   * At a single instant a full bucket never gives more than its capacity, in any run whose clock goes back
   * at most `d` in all, exactly when `d` milliseconds bring less than what is missing to a whole token.
   */
  lemma InstantBudget(b: Bucket, d: nat)
    requires b.Ok() && b.tokens == b.capacity
    ensures (forall run: seq<Reading>, at: int :: Backward(b.at, run) <= d ==> TakenIn(b, run, at, at) as real <= b.capacity)
            <==> Rest(b) + Credit(b.ratePerSecond, d) < 1.0
  {
    hide Credit, TakenIn, Backward;
    CreditGrows(b.ratePerSecond, 0);
    if Rest(b) + Credit(b.ratePerSecond, d) < 1.0 {
      forall run: seq<Reading>, at: int | Backward(b.at, run) <= d
        ensures TakenIn(b, run, at, at) as real <= b.capacity
      {
        BackwardStepsCost(b, run, at, at);
        MoreTime(b, Backward(b.at, run), d);
        WholeTokens(TakenIn(b, run, at, at), b.capacity, Credit(b.ratePerSecond, d));
      }
    } else {
      var run := OneTooMany(b, 0, d);
      assert b.at + 0 == b.at;
    }
  }

  lemma WholeTokens(n: nat, capacity: real, more: real)
    requires n as real <= capacity + more && capacity - capacity.Floor as real + more < 1.0
    ensures n as real <= capacity
  {
    NoNumberBetween(n, capacity.Floor);
  }

  lemma NoNumberBetween(n: int, m: int)
    ensures n as real < m as real + 1.0 ==> n as real <= m as real
  {
    if n > m {
      assert n as real >= (m + 1) as real;
    }
  }
}
