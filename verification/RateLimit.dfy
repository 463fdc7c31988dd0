/** packages/db/src/rate-limit.ts: the token bucket and the request lane, on values. */
module RateLimit {
  import opened Wrappers
  import opened Numbers

  /* ----- Token bucket ----- */

  /** `at` is the time of the last refill, in milliseconds. */
  datatype Bucket = Bucket(capacity: real, ratePerSecond: real, tokens: real, at: int) {
    predicate Ok() {
      capacity >= 1.0 && ratePerSecond > 0.0 && 0.0 <= tokens <= capacity
    }
  }

  function MinReal(a: real, b: real): real {
    if a <= b then a else b
  }

  /** Tokens that `ms` milliseconds bring. */
  function Credit(rate: real, ms: int): real {
    ms as real * rate / 1000.0
  }

  /** Milliseconds that bring `tokens` tokens. */
  function Ms(rate: real, tokens: real): real
    requires rate > 0.0
  {
    tokens * 1000.0 / rate
  }

  function Refill(b: Bucket, now: int): Bucket {
    b.(tokens := MinReal(b.capacity, b.tokens + Credit(b.ratePerSecond, Max(0, now - b.at))), at := now)
  }

  function Take(b: Bucket): Bucket {
    b.(tokens := b.tokens - 1.0)
  }

  /** Milliseconds until `count` tokens are there, for a refilled bucket. */
  function MsUntil(b: Bucket, count: nat): int
    requires b.ratePerSecond > 0.0
  {
    if b.tokens >= count as real then 0 else Ceil(Ms(b.ratePerSecond, count as real - b.tokens))
  }

  lemma CreditGrows(rate: real, ms: int)
    requires rate > 0.0
    ensures ms >= 0 ==> Credit(rate, ms) >= 0.0
    ensures Credit(rate, 0) == 0.0
  {
  }

  lemma CreditAdds(rate: real, a: int, b: int)
    ensures Credit(rate, a + b) == Credit(rate, a) + Credit(rate, b)
  {
    assert (a + b) as real * rate == a as real * rate + b as real * rate;
  }

  lemma MsAdds(rate: real, x: real, y: real)
    requires rate > 0.0
    ensures Ms(rate, x + y) == Ms(rate, x) + Ms(rate, y)
  {
  }

  lemma MsGrows(rate: real, x: real)
    requires rate > 0.0
    ensures x >= 0.0 ==> Ms(rate, x) >= 0.0
    ensures x > 0.0 ==> Ms(rate, x) > 0.0
    ensures x <= 0.0 ==> Ms(rate, x) <= 0.0
    ensures x < 0.0 ==> Ms(rate, x) < 0.0
  {
    var k := 1000.0 / rate;
    assert k > 0.0;
    assert Ms(rate, x) == x * k;
  }

  lemma MsOfCredit(rate: real, ms: int)
    requires rate > 0.0
    ensures Ms(rate, Credit(rate, ms)) == ms as real
  {
  }

  lemma MsTimes(rate: real, n: nat)
    requires rate > 0.0
    ensures Ms(rate, n as real) == n as real * Ms(rate, 1.0)
  {
  }

  lemma RefillOk(b: Bucket, now: int)
    requires b.Ok()
    ensures Refill(b, now).Ok() && Refill(b, now).tokens >= b.tokens
    ensures Refill(b, now).tokens <= b.tokens + Credit(b.ratePerSecond, Max(0, now - b.at))
    ensures Refill(b, now).tokens < 1.0 ==>
            Refill(b, now).tokens == b.tokens + Credit(b.ratePerSecond, Max(0, now - b.at))
  {
    hide Credit;
    CreditGrows(b.ratePerSecond, Max(0, now - b.at));
  }

  /** Asking twice at one instant changes nothing. */
  lemma RefillTwice(b: Bucket, now: int)
    requires b.Ok() && b.at == now
    ensures Refill(b, now) == b
  {
    CreditGrows(b.ratePerSecond, 0);
  }

  /* ----- How many tokens a window can see ----- */

  /** Tokens a bucket can hand out in a window of `ms` milliseconds. */
  function WindowBudget(b: Bucket, ms: int): real {
    b.capacity + Credit(b.ratePerSecond, ms)
  }

  /** `taken` tokens have been taken at times from `from` to `to`, all of them no later than `b.at`. */
  ghost predicate WindowOk(b: Bucket, taken: nat, from: int, to: int) {
    && b.Ok()
    && (b.at < from ==> taken == 0)
    && (from <= b.at <= to ==> taken as real + b.tokens <= WindowBudget(b, b.at - from))
    && (to < b.at ==> taken as real <= WindowBudget(b, to - from))
  }

  lemma MoreTime(b: Bucket, a: int, c: int)
    requires b.ratePerSecond > 0.0 && a <= c
    ensures WindowBudget(b, c) == WindowBudget(b, a) + Credit(b.ratePerSecond, c - a)
    ensures WindowBudget(b, a) <= WindowBudget(b, c)
    ensures WindowBudget(b, 0) == b.capacity
  {
    hide Credit;
    CreditAdds(b.ratePerSecond, a, c - a);
    CreditGrows(b.ratePerSecond, c - a);
  }

  lemma RefillKeepsWindow(b: Bucket, taken: nat, from: int, to: int, now: int)
    requires WindowOk(b, taken, from, to) && from <= to && b.at <= now
    ensures WindowOk(Refill(b, now), taken, from, to)
  {
    hide Credit;
    RefillOk(b, now);
    MoreTime(b, 0, to - from);
    if b.at < from {
      if from <= now {
        MoreTime(b, 0, now - from);
      }
    } else if b.at <= to {
      MoreTime(b, b.at - from, now - from);
      assert (now - from) - (b.at - from) == now - b.at;
      MoreTime(b, b.at - from, to - from);
    }
  }

  lemma TakeKeepsWindow(b: Bucket, taken: nat, from: int, to: int)
    requires WindowOk(b, taken, from, to) && b.tokens >= 1.0
    ensures WindowOk(Take(b), if from <= b.at <= to then taken + 1 else taken, from, to)
  {
  }

  lemma WindowBound(b: Bucket, taken: nat, from: int, to: int)
    requires WindowOk(b, taken, from, to) && from <= to
    ensures taken as real <= WindowBudget(b, to - from)
  {
    hide Credit;
    MoreTime(b, 0, to - from);
    if from <= b.at <= to {
      MoreTime(b, b.at - from, to - from);
    }
  }

  /* ----- Request lane ----- */

  datatype Priority = Authenticated | Unauthenticated

  /** A queued caller: its arrival number, and when it was admitted at which position with which estimate. */
  datatype Waiter = Waiter(id: nat, since: int, position: nat, estimate: int) {
    function Deadline(): int {
      since + estimate + position
    }
  }

  /** A token handed out: `shared` when it also came from the sub-bucket. `deadline` is that of a queued caller. */
  datatype Grant = Grant(time: int, id: nat, shared: bool, deadline: Option<int>)

  datatype Outcome = Granted | Shed(retryAfter: int) | QueueTimeout(estimate: int) | Aborted | Queued

  /** `log` is what happened so far; `arrivals` numbers the calls; `wakeAt` is when the pump's sleep ends. */
  datatype Lane = Lane(
    bucket: Bucket, sub: Option<Bucket>, maxWaitMs: int,
    queue: seq<Waiter>, pumping: bool, wakeAt: int, now: int, arrivals: nat, log: seq<Grant>)
  {
    predicate BucketsOk() {
      && bucket.Ok() && bucket.at <= now
      && (sub.Some? ==> sub.value.Ok() && sub.value.at <= now)
    }
  }

  function SubCapacity(burst: real, share: real): (capacity: real)
    ensures capacity >= 1.0
  {
    Max(1, (burst * share).Floor) as real
  }

  function SubRate(rate: real, share: real): (r: real)
    requires rate > 0.0 && share > 0.0
    ensures r > 0.0
  {
    rate * share
  }

  /** A new lane at time `now`; a share gives it a sub-bucket. */
  function NewLane(rate: real, burst: real, share: Option<real>, maxWaitMs: int, now: int): (l: Lane)
    requires burst >= 1.0 && rate > 0.0 && (share.Some? ==> 0.0 < share.value < 1.0)
    ensures l.BucketsOk()
  {
    var sub := if share.None? then None else
      Some(Bucket(SubCapacity(burst, share.value), SubRate(rate, share.value), SubCapacity(burst, share.value), now));
    Lane(Bucket(burst, rate, burst, now), sub, maxWaitMs, [], false, now, now, 0, [])
  }

  /** The pump's loop from one wake-up to the next sleep, or to the end of the queue. */
  function Pump(l: Lane): Lane
    requires l.bucket.ratePerSecond > 0.0
    decreases |l.queue|
  {
    if l.queue == [] then l.(pumping := false)
    else if l.bucket.tokens < 1.0 then l.(pumping := true, wakeAt := l.now + MsUntil(l.bucket, 1))
    else Pump(Serve(l))
  }

  /** The head of the queue gets a token. */
  function Serve(l: Lane): Lane
    requires l.queue != []
  {
    var first := l.queue[0];
    l.(bucket := Take(l.bucket), queue := l.queue[1..],
       log := l.log + [Grant(l.now, first.id, false, Some(first.Deadline()))])
  }

  /** The lane with its clock at `now` and its bucket refilled. */
  function AtTime(l: Lane, now: int): Lane {
    l.(bucket := Refill(l.bucket, now), now := now)
  }

  /** A caller that gets its token at once. */
  function Direct(l: Lane): Lane {
    l.(bucket := Take(l.bucket), arrivals := l.arrivals + 1, log := l.log + [Grant(l.now, l.arrivals, false, None)])
  }

  /** A caller that joins the queue of a refilled lane. */
  function Join(l: Lane, estimate: int): Lane {
    l.(arrivals := l.arrivals + 1, queue := l.queue + [Waiter(l.arrivals, l.now, |l.queue| + 1, estimate)])
  }

  /** A caller that gets a token of each bucket at once. */
  function DirectShared(l: Lane): Lane
    requires l.sub.Some?
  {
    l.(bucket := Take(l.bucket), sub := Some(Take(l.sub.value)), arrivals := l.arrivals + 1,
       log := l.log + [Grant(l.now, l.arrivals, true, None)])
  }

  /** acquire("unauthenticated") on a lane with a sub-bucket: one token of each at once, or shed. */
  function AcquireShared(l0: Lane, now: int): (Lane, Outcome)
    requires l0.sub.Some? && l0.bucket.ratePerSecond > 0.0 && l0.sub.value.ratePerSecond > 0.0
  {
    var l := AtTime(l0, now).(sub := Some(Refill(l0.sub.value, now)));
    if l.queue != [] || l.bucket.tokens < 1.0 || l.sub.value.tokens < 1.0 then
      (l.(arrivals := l.arrivals + 1),
       Shed(Max(Max(MsUntil(l.bucket, |l.queue| + 1), MsUntil(l.sub.value, 1)), 1)))
    else
      (DirectShared(l), Granted)
  }

  /** acquire("authenticated"), or any call on a lane without a sub-bucket. */
  function AcquireQueued(l0: Lane, now: int): (Lane, Outcome)
    requires l0.bucket.ratePerSecond > 0.0
  {
    var l := AtTime(l0, now);
    if l.queue == [] && l.bucket.tokens >= 1.0 then (Direct(l), Granted)
    else
      var estimate := MsUntil(l.bucket, |l.queue| + 1);
      if estimate > l.maxWaitMs then (l.(arrivals := l.arrivals + 1), QueueTimeout(estimate))
      else if l.pumping then (Join(l, estimate), Queued)
      else (Pump(Join(l, estimate)), Queued)
  }

  function Acquire(l: Lane, now: int, priority: Priority, aborted: bool): (Lane, Outcome)
    requires l.bucket.ratePerSecond > 0.0 && (l.sub.Some? ==> l.sub.value.ratePerSecond > 0.0)
  {
    if aborted then (l.(now := now, arrivals := l.arrivals + 1), Aborted)
    else if priority == Unauthenticated && l.sub.Some? then AcquireShared(l, now)
    else AcquireQueued(l, now)
  }

  /** An aborted caller leaves the queue, if it is still in it. */
  function Without(queue: seq<Waiter>, id: nat): seq<Waiter> {
    if queue == [] then []
    else if queue[0].id == id then queue[1..]
    else [queue[0]] + Without(queue[1..], id)
  }

  /** The sleep is over: a pump with nobody to serve ends without looking at its bucket. */
  function Woken(l: Lane, now: int): Lane
    requires l.bucket.ratePerSecond > 0.0
  {
    if l.queue == [] then l.(pumping := false, now := now) else Pump(AtTime(l, now))
  }

  datatype Event =
    | Call(now: int, priority: Priority, aborted: bool)
    | Leave(now: int, id: nat)
    | Wake(now: int)

  function Happen(l: Lane, e: Event): Lane
    requires l.BucketsOk()
  {
    match e
    case Call(now, priority, aborted) => Acquire(l, now, priority, aborted).0
    case Leave(now, id) => l.(queue := Without(l.queue, id), now := now)
    case Wake(now) => Woken(l, now)
  }

  /** Time does not go back, and only a sleeping pump wakes, never early. */
  predicate Possible(l: Lane, e: Event) {
    e.now >= l.now && (e.Wake? ==> l.pumping && e.now >= l.wakeAt)
  }

  /** Sleeps end on time: nothing happens after the end of a sleep before the wake-up. */
  predicate Timely(l: Lane, e: Event) {
    l.pumping ==> e.now <= l.wakeAt
  }

  /** The events in order, each possible when it happens. */
  ghost predicate CanRun(l: Lane, events: seq<Event>)
    requires l.BucketsOk()
    decreases |events|
  {
    events != [] ==>
      Possible(l, events[0]) && (StepKeepsBuckets(l, events[0]); CanRun(Happen(l, events[0]), events[1..]))
  }

  function RunAll(l: Lane, events: seq<Event>): Lane
    requires l.BucketsOk() && CanRun(l, events)
    decreases |events|
  {
    if events == [] then l
    else StepKeepsBuckets(l, events[0]); RunAll(Happen(l, events[0]), events[1..])
  }

  lemma StepKeepsBuckets(l: Lane, e: Event)
    requires l.BucketsOk() && Possible(l, e)
    ensures Happen(l, e).BucketsOk()
    ensures Happen(l, e).now == e.now
  {
    hide Credit;
    if !e.Leave? && !(e.Call? && e.aborted) {
      RefillOk(l.bucket, e.now);
      if l.sub.Some? {
        RefillOk(l.sub.value, e.now);
      }
      var filled := AtTime(l, e.now);
      if e.Wake? {
        PumpKeepsBuckets(filled);
      } else if !(e.priority.Unauthenticated? && l.sub.Some?) {
        var estimate := MsUntil(filled.bucket, |l.queue| + 1);
        PumpKeepsBuckets(Join(filled, estimate));
      }
    }
  }

  lemma {:induction false} PumpKeepsBuckets(l: Lane)
    requires l.BucketsOk()
    ensures Pump(l).BucketsOk() && Pump(l).now == l.now
    decreases |l.queue|
  {
    if l.queue != [] && l.bucket.tokens >= 1.0 {
      PumpKeepsBuckets(Serve(l));
    }
  }
}
