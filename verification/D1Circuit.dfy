/** packages/db/src/circuit-breaker.ts: the circuit all D1 clients of a process share. */
module D1Circuit {
  import opened Wrappers
  import opened Numbers

  const DEFAULT_RETRY_AFTER_MS := 300_000
  const MAX_RETRY_AFTER_MS := 3_600_000

  /** A Retry-After header as it was parsed; seconds beyond the double range are malformed. */
  datatype RetryAfter = Missing | Malformed | Seconds(n: nat) | Date(ms: int)

  /** One policy of the rate-limit headers. */
  datatype Policy = Policy(remaining: Option<real>, resetSeconds: Option<real>)

  datatype Reason = Http429 | Exhausted

  function ClampRetry(ms: int): (r: int)
    ensures 1_000 <= r <= MAX_RETRY_AFTER_MS
  {
    Min(MAX_RETRY_AFTER_MS, Max(1_000, ms))
  }

  function RetryMs(header: RetryAfter, now: int): (ms: int)
    ensures 1_000 <= ms <= MAX_RETRY_AFTER_MS
  {
    match header
    case Missing => DEFAULT_RETRY_AFTER_MS
    case Malformed => DEFAULT_RETRY_AFTER_MS
    case Seconds(n) => ClampRetry(n * 1000)
    case Date(ms) => ClampRetry(ms - now)
  }

  function ResetMs(p: Policy): (ms: int)
    ensures 1_000 <= ms <= MAX_RETRY_AFTER_MS
  {
    if p.resetSeconds.None? then DEFAULT_RETRY_AFTER_MS else ClampRetry(Ceil(p.resetSeconds.value * 1000.0))
  }

  datatype Circuit = Circuit(
    reserveRequests: real, openUntil: int, reason: Option<Reason>, openedCount: nat, lastRemaining: Option<real>)

  function NewCircuit(reserveRequests: real): Circuit {
    Circuit(reserveRequests, 0, None, 0, None)
  }

  predicate IsOpen(c: Circuit, now: int) {
    now < c.openUntil
  }

  /** Opens the circuit for `ms`, or extends it; it is never shortened. */
  function Open(c: Circuit, ms: int, reason: Reason, now: int): Circuit {
    if now + ms <= c.openUntil then c
    else c.(openUntil := now + ms, reason := Some(reason),
            openedCount := if IsOpen(c, now) then c.openedCount else c.openedCount + 1)
  }

  predicate Exhausts(p: Policy, reserveRequests: real) {
    p.remaining.Some? && p.remaining.value <= reserveRequests
  }

  function Observe(c: Circuit, policies: seq<Policy>, now: int): Circuit {
    if policies == [] then c
    else
      var before, last := Observe(c, policies[..|policies| - 1], now), policies[|policies| - 1];
      if Exhausts(last, c.reserveRequests) then Open(before, ResetMs(last), Exhausted, now) else before
  }

  /** The lowest `remaining` of the policies, if any has one. */
  function Lowest(policies: seq<Policy>): Option<real> {
    if policies == [] then None
    else
      var before, last := Lowest(policies[..|policies| - 1]), policies[|policies| - 1];
      if last.remaining.None? then before
      else if before.None? || last.remaining.value < before.value then last.remaining
      else before
  }

  function ObserveHeaders(c: Circuit, policies: seq<Policy>, now: int): Circuit {
    var after := Observe(c, policies, now);
    if Lowest(policies).None? then after else after.(lastRemaining := Lowest(policies))
  }

  /** The times until which the circuit was asked to stay open. */
  function Blocks(policies: seq<Policy>, reserveRequests: real, now: int): seq<int> {
    if policies == [] then []
    else
      var before, last := Blocks(policies[..|policies| - 1], reserveRequests, now), policies[|policies| - 1];
      if Exhausts(last, reserveRequests) then before + [now + ResetMs(last)] else before
  }

  /** `until` is the latest of some times, or `before` when that is later than all. */
  ghost predicate IsLatest(until: int, times: seq<int>, before: int) {
    && until >= before && (forall i :: 0 <= i < |times| ==> times[i] <= until)
    && (until == before || until in times)
  }

  /** After any headers the circuit is open until exactly the latest time any of them asked for. */
  lemma {:induction false} ObserveOpens(c: Circuit, policies: seq<Policy>, now: int)
    ensures var after := Observe(c, policies, now);
            && IsLatest(after.openUntil, Blocks(policies, c.reserveRequests, now), c.openUntil)
            && after.reserveRequests == c.reserveRequests
            && after.openedCount == c.openedCount + if IsOpen(after, now) && !IsOpen(c, now) then 1 else 0
  {
    if policies != [] {
      ObserveOpens(c, policies[..|policies| - 1], now);
    }
  }

  class D1CircuitBreaker {
    const reserveRequests: real
    var openUntil: int
    var reason: Option<Reason>
    var openedCount: nat
    var lastRemaining: Option<real>

    constructor (reserveRequests: real)
      ensures Now() == NewCircuit(reserveRequests)
    {
      this.reserveRequests := reserveRequests;
      openUntil, reason, openedCount, lastRemaining := 0, None, 0, None;
    }

    ghost function Now(): Circuit
      reads this
    {
      Circuit(reserveRequests, openUntil, reason, openedCount, lastRemaining)
    }

    /** Whether a call may start; otherwise how long it would have to wait. */
    method AssertClosed(now: int) returns (closed: bool, retryAfterMs: int)
      ensures closed <==> !IsOpen(Now(), now)
      ensures now + retryAfterMs == Max(now, openUntil)
    {
      closed := now >= openUntil;
      retryAfterMs := if closed then 0 else openUntil - now;
    }

    method OpenFor(ms: int, why: Reason, now: int)
      modifies this
      ensures Now() == Open(old(Now()), ms, why, now)
    {
      var until := now + ms;
      if until > openUntil {
        if now >= openUntil {
          openedCount := openedCount + 1;
        }
        openUntil, reason := until, Some(why);
      }
    }

    method RecordTooManyRequests(header: RetryAfter, now: int) returns (ms: int)
      modifies this
      ensures ms == RetryMs(header, now) && Now() == Open(old(Now()), ms, Http429, now)
    {
      ms := RetryMs(header, now);
      OpenFor(ms, Http429, now);
    }

    method ObserveAll(policies: seq<Policy>, now: int)
      modifies this
      ensures Now() == ObserveHeaders(old(Now()), policies, now)
    {
      var lowest: Option<real> := None;
      ghost var start := Now();
      assert policies[..0] == [];
      for i := 0 to |policies|
        invariant Now() == Observe(start, policies[..i], now)
        invariant lowest == Lowest(policies[..i])
        invariant Now().reserveRequests == start.reserveRequests
      {
        assert policies[..i + 1][..i] == policies[..i];
        var policy := policies[i];
        if policy.remaining.Some? {
          lowest := if lowest.None? || policy.remaining.value < lowest.value then policy.remaining else lowest;
          if policy.remaining.value <= reserveRequests {
            OpenFor(ResetMs(policy), Exhausted, now);
          }
        }
      }
      assert policies[..|policies|] == policies;
      if lowest.Some? {
        lastRemaining := lowest;
      }
    }
  }
}
