/** packages/db/src/rate-limit.ts: TokenBucket and RateLane as the objects they are. */
module RateLanes {
  import opened Wrappers
  import opened Numbers
  import opened RateLimit

  class TokenBucket {
    const capacity: real
    const ratePerSecond: real
    var tokens: real
    var refilledAt: int

    constructor (capacity: real, ratePerSecond: real, now: int)
      requires capacity >= 1.0 && ratePerSecond > 0.0
      ensures Now() == Bucket(capacity, ratePerSecond, capacity, now)
    {
      this.capacity, this.ratePerSecond := capacity, ratePerSecond;
      tokens, refilledAt := capacity, now;
    }

    ghost function Now(): Bucket
      reads this
    {
      Bucket(capacity, ratePerSecond, tokens, refilledAt)
    }

    method Fill(now: int)
      modifies this
      ensures Now() == Refill(old(Now()), now)
    {
      var elapsed := Max(0, now - refilledAt);
      tokens := MinReal(capacity, tokens + Credit(ratePerSecond, elapsed));
      refilledAt := now;
    }

    method Available(now: int) returns (available: real)
      modifies this
      ensures Now() == Refill(old(Now()), now) && available == tokens
    {
      Fill(now);
      available := tokens;
    }

    method TryTake(now: int) returns (taken: bool)
      modifies this
      ensures taken == (Refill(old(Now()), now).tokens >= 1.0)
      ensures Now() == if taken then Take(Refill(old(Now()), now)) else Refill(old(Now()), now)
    {
      Fill(now);
      if tokens < 1.0 {
        return false;
      }
      tokens := tokens - 1.0;
      taken := true;
    }

    method WaitFor(now: int, count: nat) returns (ms: int)
      requires ratePerSecond > 0.0
      modifies this
      ensures Now() == Refill(old(Now()), now) && ms == MsUntil(Now(), count)
    {
      Fill(now);
      if tokens >= count as real {
        return 0;
      }
      ms := Ceil(Ms(ratePerSecond, count as real - tokens));
    }
  }

  class RateLane {
    const maxWaitMs: int
    const bucket: TokenBucket
    const unauthenticated: TokenBucket?
    var queue: seq<Waiter>
    var pumping: bool
    /** When the pump's timer fires. */
    var wakeAt: int
    var arrivals: nat
    ghost var now: int
    ghost var log: seq<Grant>

    ghost predicate Valid()
      reads this, Buckets()
    {
      bucket != unauthenticated && Now().BucketsOk()
    }

    ghost function Buckets(): set<object> {
      if unauthenticated == null then {bucket} else {bucket, unauthenticated}
    }

    ghost function Now(): Lane
      reads this, Buckets()
    {
      Lane(bucket.Now(), if unauthenticated == null then None else Some(unauthenticated.Now()), maxWaitMs,
           queue, pumping, wakeAt, now, arrivals, log)
    }

    constructor (ratePerSecond: real, burst: real, share: Option<real>, maxWaitMs: int, now: int)
      requires burst >= 1.0 && ratePerSecond > 0.0 && (share.Some? ==> 0.0 < share.value < 1.0)
      ensures Valid() && fresh(Buckets())
      ensures Now() == NewLane(ratePerSecond, burst, share, maxWaitMs, now)
    {
      hide SubCapacity, SubRate;
      this.maxWaitMs := maxWaitMs;
      bucket := new TokenBucket(burst, ratePerSecond, now);
      if share.Some? {
        unauthenticated := new TokenBucket(SubCapacity(burst, share.value), SubRate(ratePerSecond, share.value), now);
      } else {
        unauthenticated := null;
      }
      queue, pumping, wakeAt, arrivals := [], false, now, 0;
      this.now, log := now, [];
    }

    /** One token of each bucket at once, or shed. */
    method TakeShared(t: int) returns (outcome: Outcome)
      requires Valid() && unauthenticated != null && t >= now
      modifies this, Buckets()
      ensures (Now(), outcome) == AcquireShared(old(Now()), t)
    {
      hide Ms, Credit;
      RefillOk(bucket.Now(), t);
      RefillOk(unauthenticated.Now(), t);
      RefillTwice(Refill(bucket.Now(), t), t);
      RefillTwice(Refill(unauthenticated.Now(), t), t);
      now := t;
      var short := queue != [];
      if !short {
        var available := bucket.Available(t);
        short := available < 1.0;
      }
      if !short {
        var available := unauthenticated.Available(t);
        short := available < 1.0;
      }
      if short {
        var all := bucket.WaitFor(t, |queue| + 1);
        var own := unauthenticated.WaitFor(t, 1);
        arrivals := arrivals + 1;
        return Shed(Max(Max(all, own), 1));
      }
      var first := bucket.TryTake(t);
      var second := unauthenticated.TryTake(t);
      log := log + [Grant(t, arrivals, true, None)];
      arrivals := arrivals + 1;
      outcome := Granted;
    }

    /** Waits for a token, or takes one at once; what the caller learns now. */
    method Acquire(t: int, priority: Priority, aborted: bool) returns (outcome: Outcome)
      requires Valid() && t >= now
      modifies this, Buckets()
      ensures (Now(), outcome) == RateLimit.Acquire(old(Now()), t, priority, aborted)
    {
      hide Ms, Credit;
      if aborted {
        now, arrivals := t, arrivals + 1;
        return Aborted;
      }
      if priority == Unauthenticated && unauthenticated != null {
        outcome := TakeShared(t);
        return;
      }
      outcome := TakeOrWait(t);
    }

    /** One token of the bucket at once, or a place in the queue, or refused when the wait is too long. */
    method TakeOrWait(t: int) returns (outcome: Outcome)
      requires Valid() && t >= now
      modifies this, Buckets()
      ensures (Now(), outcome) == AcquireQueued(old(Now()), t)
    {
      hide Ms, Credit, Pump;
      RefillOk(bucket.Now(), t);
      RefillTwice(Refill(bucket.Now(), t), t);
      now := t;
      if queue == [] {
        var taken := bucket.TryTake(t);
        if taken {
          log := log + [Grant(t, arrivals, false, None)];
          arrivals := arrivals + 1;
          return Granted;
        }
      }
      var estimate := bucket.WaitFor(t, |queue| + 1);
      if estimate > maxWaitMs {
        arrivals := arrivals + 1;
        return QueueTimeout(estimate);
      }
      queue := queue + [Waiter(arrivals, t, |queue| + 1, estimate)];
      arrivals := arrivals + 1;
      if !pumping {
        StartPump(t);
      }
      outcome := Queued;
    }

    /** The caller's signal fires while it waits. */
    method OnAbort(t: int, id: nat)
      modifies this
      ensures Now() == old(Now()).(queue := Without(old(queue), id), now := t)
    {
      var position := IndexOf(queue, id);
      if position < |queue| {
        queue := queue[..position] + queue[position + 1..];
      }
      now := t;
    }

    method StartPump(t: int)
      requires Valid() && !pumping && queue != [] && bucket.refilledAt == now == t
      modifies this, bucket
      ensures Now() == Pump(old(Now()))
    {
      hide Credit;
      RefillTwice(bucket.Now(), t);
      PumpStart(Now());
      pumping := true;
      RunPump(t);
    }

    /** The loop between two sleeps: tokens go to the head of the queue while there are any. */
    method RunPump(t: int)
      requires Valid() && pumping && t >= now
      modifies this, bucket
      ensures Now() == Woken(old(Now()), t)
    {
      hide Ms, Credit;
      ghost var goal := Woken(Now(), t);
      now := t;
      while queue != []
        invariant Valid() && pumping && now == t
        invariant goal == Woken(Now(), t)
        decreases |queue|
      {
        RefillOk(bucket.Now(), t);
        RefillTwice(Refill(bucket.Now(), t), t);
        ghost var filled := AtTime(Now(), t);
        var taken := bucket.TryTake(t);
        if taken {
          log := log + [Grant(t, queue[0].id, false, Some(queue[0].Deadline()))];
          queue := queue[1..];
          assert Now() == Serve(filled);
          ServedAgain(filled);
          continue;
        }
        var ms := bucket.WaitFor(t, 1);
        wakeAt := t + ms;
        return;
      }
      pumping := false;
    }
  }

  /** Where a waiter is in the queue; its length when it is not. */
  method IndexOf(queue: seq<Waiter>, id: nat) returns (position: nat)
    ensures position <= |queue|
    ensures Without(queue, id) == if position < |queue| then queue[..position] + queue[position + 1..] else queue
  {
    position := 0;
    assert queue[0..] == queue;
    while position < |queue| && queue[position].id != id
      invariant position <= |queue|
      invariant Without(queue, id) == queue[..position] + Without(queue[position..], id)
    {
      WithoutStep(queue, position, id);
      position := position + 1;
    }
    if position < |queue| {
      WithoutStep(queue, position, id);
    } else {
      assert queue[..position] == queue && queue[position..] == [];
      assert queue + [] == queue;
    }
  }

  lemma WithoutStep(queue: seq<Waiter>, k: nat, id: nat)
    requires k < |queue|
    ensures queue[..k] + Without(queue[k..], id) ==
            if queue[k].id == id then queue[..k] + queue[k + 1..] else queue[..k + 1] + Without(queue[k + 1..], id)
  {
    assert queue[..k] + [queue[k]] == queue[..k + 1];
    assert queue[k..][1..] == queue[k + 1..];
  }

  lemma PumpStart(l: Lane)
    requires l.BucketsOk() && l.queue != []
    ensures Pump(l.(pumping := true)) == Pump(l)
    decreases |l.queue|
  {
    if l.bucket.tokens >= 1.0 && |l.queue| > 1 {
      PumpStart(Serve(l));
      assert Serve(l.(pumping := true)) == Serve(l).(pumping := true);
    }
  }

  /** After a served caller the bucket is still filled up to now. */
  lemma ServedAgain(l: Lane)
    requires l.BucketsOk() && l.bucket.at == l.now && l.queue != [] && l.bucket.tokens >= 1.0
    ensures Serve(l).BucketsOk()
    ensures Woken(Serve(l), l.now) == Pump(l)
  {
    hide Credit;
    RefillTwice(Take(l.bucket), l.now);
    var next := Serve(l);
    assert AtTime(next, l.now) == next;
  }
}
