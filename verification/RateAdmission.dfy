/** packages/db/src/rate-limit.ts: who is let in at once, who waits and who is refused, told from tokens and credit. */
module RateAdmission {
  import opened Wrappers
  import opened Numbers
  import opened RateLimit
  import opened RateQueue

  /* ----- Tokens and waits ----- */

  /** What is in the bucket at `now`, before anybody takes of it. */
  function TokensAt(b: Bucket, now: int): real {
    var grown := b.tokens + Credit(b.ratePerSecond, if now > b.at then now - b.at else 0);
    if grown > b.capacity then b.capacity else grown
  }

  /** `ms` milliseconds from `now` on bring what is missing to `count` tokens. */
  predicate Suffices(b: Bucket, now: int, ms: int, count: nat) {
    TokensAt(b, now) + Credit(b.ratePerSecond, ms) >= count as real
  }

  /** `ms` is the least wait of at least `least` milliseconds after which there are enough tokens. */
  ghost predicate IsWait(b: Bucket, now: int, least: nat, count: nat, ms: int) {
    && ms >= least && Suffices(b, now, ms, count)
    && forall v: int :: least <= v < ms ==> !Suffices(b, now, v, count)
  }

  /** The least wait of at least a millisecond that brings `count` tokens to one bucket and one to the other. */
  ghost predicate IsWaitForBoth(b: Bucket, sub: Bucket, now: int, count: nat, ms: int) {
    && ms >= 1 && Suffices(b, now, ms, count) && Suffices(sub, now, ms, 1)
    && forall v: int :: 1 <= v < ms ==> !(Suffices(b, now, v, count) && Suffices(sub, now, v, 1))
  }

  lemma TokensAreRefilled(b: Bucket, now: int)
    ensures Refill(b, now).tokens == TokensAt(b, now)
  {
  }

  lemma CreditKeepsOrder(rate: real, a: int, b: int)
    requires rate > 0.0 && a <= b
    ensures Credit(rate, a) <= Credit(rate, b)
  {
    CreditAdds(rate, a, b - a);
    CreditGrows(rate, b - a);
  }

  /** Enough tokens stay enough. */
  lemma SufficesLater(b: Bucket, now: int, v: int, ms: int, count: nat)
    requires b.Ok() && v <= ms && Suffices(b, now, v, count)
    ensures Suffices(b, now, ms, count)
  {
    hide Credit;
    CreditKeepsOrder(b.ratePerSecond, v, ms);
  }

  lemma MsUntilSuffices(b: Bucket, now: int, count: nat, v: int)
    requires b.Ok() && v >= 0
    ensures Suffices(b, now, v, count) <==> v >= MsUntil(Refill(b, now), count)
  {
    hide Ms, Credit;
    TokensAreRefilled(b, now);
    var rate, filled := b.ratePerSecond, Refill(b, now);
    var short := count as real - filled.tokens;
    MsOfCredit(rate, v);
    CreditGrows(rate, v);
    MsAdds(rate, short, Credit(rate, v) - short);
    assert short + (Credit(rate, v) - short) == Credit(rate, v);
    MsGrows(rate, Credit(rate, v) - short);
    MsGrows(rate, short);
  }

  lemma MsUntilIsWait(b: Bucket, now: int, count: nat)
    requires b.Ok()
    ensures MsUntil(Refill(b, now), count) >= 0
    ensures IsWait(b, now, 0, count, MsUntil(Refill(b, now), count))
  {
    hide Suffices, MsUntil, Credit;
    MsUntilNotNegative(b, now, count);
    forall v: int | v >= 0
      ensures Suffices(b, now, v, count) <==> v >= MsUntil(Refill(b, now), count)
    {
      MsUntilSuffices(b, now, count, v);
    }
  }

  lemma MsUntilNotNegative(b: Bucket, now: int, count: nat)
    requires b.Ok()
    ensures MsUntil(Refill(b, now), count) >= 0
  {
    hide Ms, Credit;
    var filled := Refill(b, now);
    MsGrows(b.ratePerSecond, count as real - filled.tokens);
  }

  lemma OneWait(b: Bucket, now: int, count: nat, ms: int, other: int)
    requires IsWait(b, now, 0, count, ms) && IsWait(b, now, 0, count, other)
    ensures ms == other
  {
    hide Suffices;
  }

  /* ----- Authenticated callers ----- */

  /** The bucket after a call at `now` that takes `taken` tokens. */
  predicate Spent(before: Bucket, after: Bucket, now: int, taken: real) {
    after == before.(tokens := TokensAt(before, now) - taken, at := now)
  }

  ghost predicate AdmittedAtOnce(l: Lane, m: Lane, now: int) {
    m.queue == [] && Spent(l.bucket, m.bucket, now, 1.0) && m.log == l.log + [Grant(now, l.arrivals, false, None)]
  }

  /** The caller stands at the end of the queue, and somebody hands out tokens. */
  ghost predicate AdmittedLast(l: Lane, m: Lane, now: int, ms: int) {
    && m.queue == l.queue + [Waiter(l.arrivals, now, |l.queue| + 1, ms)] && m.pumping
    && m.log == l.log && Spent(l.bucket, m.bucket, now, 0.0)
  }

  /**
   * A caller that may wait gets a token at once exactly when nobody queues and one is there. Otherwise it is
   * refused exactly when the least wait that brings a token for everybody queued and for itself is longer than
   * allowed, and is told that wait; else it joins the queue at the end.
   */
  lemma WaitingAdmission(l: Lane, now: int, priority: Priority, ms: int)
    requires l.BucketsOk() && (priority.Authenticated? || l.sub.None?) && IsWait(l.bucket, now, 0, |l.queue| + 1, ms)
    ensures var (m, outcome) := Acquire(l, now, priority, false);
            var atOnce := l.queue == [] && TokensAt(l.bucket, now) >= 1.0;
            && outcome == (if atOnce then Granted else if ms > l.maxWaitMs then QueueTimeout(ms) else Queued)
            && m.arrivals == l.arrivals + 1 && m.sub == l.sub && m.maxWaitMs == l.maxWaitMs
            && (atOnce ==> AdmittedAtOnce(l, m, now))
            && (outcome.QueueTimeout? ==> m.queue == l.queue && m.log == l.log && Spent(l.bucket, m.bucket, now, 0.0))
            && (outcome.Queued? && NoLostWakeUp(l) ==> AdmittedLast(l, m, now, ms))
  {
    hide Credit, MsUntil, Suffices, IsWait, TokensAt;
    TokensAreRefilled(l.bucket, now);
    MsUntilIsWait(l.bucket, now, |l.queue| + 1);
    OneWait(l.bucket, now, |l.queue| + 1, ms, MsUntil(Refill(l.bucket, now), |l.queue| + 1));
    var filled := AtTime(l, now);
    var joined := Join(filled, ms);
    PumpKeepsRest(joined);
    if l.queue == [] && filled.bucket.tokens < 1.0 {
      assert Pump(joined).queue == joined.queue;
    }
  }

  lemma {:induction false} PumpKeepsRest(l: Lane)
    requires l.bucket.ratePerSecond > 0.0
    ensures Pump(l).arrivals == l.arrivals && Pump(l).sub == l.sub && Pump(l).maxWaitMs == l.maxWaitMs
    decreases |l.queue|
  {
    if l.queue != [] && l.bucket.tokens >= 1.0 {
      PumpKeepsRest(Serve(l));
    }
  }

  /** There is such a wait, so the two cases are all there are. */
  lemma WaitExists(b: Bucket, now: int, count: nat) returns (ms: int)
    requires b.Ok()
    ensures IsWait(b, now, 0, count, ms)
  {
    ms := MsUntil(Refill(b, now), count);
    MsUntilIsWait(b, now, count);
  }

  /* ----- Unauthenticated callers ----- */

  lemma ShedForBoth(b: Bucket, sub: Bucket, now: int, count: nat)
    requires b.Ok() && sub.Ok()
    ensures IsWaitForBoth(b, sub, now, count, Max(Max(MsUntil(Refill(b, now), count), MsUntil(Refill(sub, now), 1)), 1))
  {
    hide Suffices, MsUntil, Credit;
    forall v: int | v >= 0
      ensures Suffices(b, now, v, count) <==> v >= MsUntil(Refill(b, now), count)
      ensures Suffices(sub, now, v, 1) <==> v >= MsUntil(Refill(sub, now), 1)
    {
      MsUntilSuffices(b, now, count, v);
      MsUntilSuffices(sub, now, 1, v);
    }
  }

  lemma OneWaitForBoth(b: Bucket, sub: Bucket, now: int, count: nat, ms: int, other: int)
    requires IsWaitForBoth(b, sub, now, count, ms) && IsWaitForBoth(b, sub, now, count, other)
    ensures ms == other
  {
    hide Suffices;
  }

  /**
   * A caller of the shared part gets its tokens at once exactly when nobody queues and both buckets have one.
   * Otherwise it is shed, with the least wait of a millisecond or more that brings a token for everybody queued
   * and itself, and one of the shared part.
   */
  lemma SharedAdmission(l: Lane, now: int, ms: int)
    requires l.BucketsOk() && l.sub.Some? && IsWaitForBoth(l.bucket, l.sub.value, now, |l.queue| + 1, ms)
    ensures var (m, outcome) := Acquire(l, now, Unauthenticated, false);
            var atOnce := l.queue == [] && TokensAt(l.bucket, now) >= 1.0 && TokensAt(l.sub.value, now) >= 1.0;
            && outcome == (if atOnce then Granted else Shed(ms))
            && m.queue == l.queue && m.arrivals == l.arrivals + 1 && m.now == now && m.maxWaitMs == l.maxWaitMs
            && m.sub.Some? && Spent(l.bucket, m.bucket, now, if atOnce then 1.0 else 0.0)
            && Spent(l.sub.value, m.sub.value, now, if atOnce then 1.0 else 0.0)
            && m.log == if atOnce then l.log + [Grant(now, l.arrivals, true, None)] else l.log
  {
    hide Credit, MsUntil, Suffices, IsWaitForBoth;
    TokensAreRefilled(l.bucket, now);
    TokensAreRefilled(l.sub.value, now);
    ShedForBoth(l.bucket, l.sub.value, now, |l.queue| + 1);
    OneWaitForBoth(l.bucket, l.sub.value, now, |l.queue| + 1, ms,
                   Max(Max(MsUntil(Refill(l.bucket, now), |l.queue| + 1), MsUntil(Refill(l.sub.value, now), 1)), 1));
  }

  /* ----- A new lane ----- */

  /** A share of the burst in whole tokens, but at least one. */
  predicate IsShareOf(tokens: real, burst: real, share: real) {
    && tokens == tokens.Floor as real && burst * share < tokens + 1.0
    && (if burst * share < 1.0 then tokens == 1.0 else tokens <= burst * share)
  }

  /** Full buckets, and a share of burst and rate for unauthenticated callers. */
  lemma NewLaneIsFull(rate: real, burst: real, share: Option<real>, maxWaitMs: int, start: int, now: int)
    requires burst >= 1.0 && rate > 0.0 && (share.Some? ==> 0.0 < share.value < 1.0) && start <= now
    ensures var l := NewLane(rate, burst, share, maxWaitMs, start);
            && l.BucketsOk() && l.queue == [] && l.maxWaitMs == maxWaitMs && l.bucket.ratePerSecond == rate
            && TokensAt(l.bucket, now) == l.bucket.capacity == burst
            && (l.sub.Some? <==> share.Some?)
            && (share.Some? ==> && l.sub.value.ratePerSecond == rate * share.value
                                && TokensAt(l.sub.value, now) == l.sub.value.capacity
                                && IsShareOf(l.sub.value.capacity, burst, share.value))
  {
    hide Credit;
    var l := NewLane(rate, burst, share, maxWaitMs, start);
    CreditGrows(l.bucket.ratePerSecond, now - start);
    if share.Some? {
      CreditGrows(l.sub.value.ratePerSecond, now - start);
    }
  }

  /** `n` callers at one instant. */
  function Calls(n: nat, at: int): seq<Event> {
    seq(n, _ => Call(at, Authenticated, false))
  }

  lemma {:induction false} TokensAreGranted(l: Lane, at: int, n: nat)
    requires l.BucketsOk() && l.now <= at && l.queue == [] && n as real <= TokensAt(l.bucket, at)
    ensures CanRun(l, Calls(n, at)) && |RunAll(l, Calls(n, at)).log| == |l.log| + n
    decreases n
  {
    hide Credit, Suffices, Acquire, TokensAt;
    if n > 0 {
      var e := Call(at, Authenticated, false);
      assert Calls(n, at)[0] == e && Calls(n, at)[1..] == Calls(n - 1, at);
      var ms := WaitExists(l.bucket, at, |l.queue| + 1);
      WaitingAdmission(l, at, Authenticated, ms);
      StepKeepsBuckets(l, e);
      var m := Happen(l, e);
      StaysFilled(m.bucket, at);
      TokensAreGranted(m, at, n - 1);
    }
  }

  lemma StaysFilled(b: Bucket, now: int)
    requires b.Ok() && b.at == now
    ensures TokensAt(b, now) == b.tokens
  {
    CreditGrows(b.ratePerSecond, 0);
  }

  /** A new lane serves as many callers at one instant, at any time, as the burst has whole tokens. */
  lemma BurstIsGranted(rate: real, burst: real, share: Option<real>, maxWaitMs: int, start: int, at: int, n: nat)
    requires burst >= 1.0 && rate > 0.0 && (share.Some? ==> 0.0 < share.value < 1.0) && start <= at
    requires n as real <= burst
    ensures var l := NewLane(rate, burst, share, maxWaitMs, start);
            CanRun(l, Calls(n, at)) && |RunAll(l, Calls(n, at)).log| == n
  {
    hide CanRun, RunAll, TokensAt;
    NewLaneIsFull(rate, burst, share, maxWaitMs, start, at);
    TokensAreGranted(NewLane(rate, burst, share, maxWaitMs, start), at, n);
  }
}
