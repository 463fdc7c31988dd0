/** packages/db/src/rate-limit.ts: the lane's queue over all runs: order, wake-ups and waiting times. */
module RateQueue {
  import opened Wrappers
  import opened Numbers
  import opened RateLimit

  /* ----- Order ----- */

  /** Tokens go out in order of arrival, before everybody still queued, and somebody is there to hand them out. */
  ghost predicate InOrder(l: Lane) {
    && (forall i, j :: 0 <= i < j < |l.log| ==> l.log[i].id < l.log[j].id)
    && (forall i, j :: 0 <= i < j < |l.queue| ==> l.queue[i].id < l.queue[j].id)
    && (forall i, j :: 0 <= i < |l.log| && 0 <= j < |l.queue| ==> l.log[i].id < l.queue[j].id)
    && (forall i :: 0 <= i < |l.log| ==> l.log[i].id < l.arrivals)
    && (forall j :: 0 <= j < |l.queue| ==> l.queue[j].id < l.arrivals)
  }

  ghost predicate NoLostWakeUp(l: Lane) {
    l.queue != [] ==> l.pumping
  }

  lemma {:induction false} WithoutDropsOne(queue: seq<Waiter>, id: nat) returns (k: nat)
    ensures Without(queue, id) == queue ||
            (k < |queue| && queue[k].id == id && Without(queue, id) == queue[..k] + queue[k + 1..])
  {
    k := 0;
    if queue != [] && queue[0].id != id {
      var rest := WithoutDropsOne(queue[1..], id);
      k := rest + 1;
      if Without(queue[1..], id) == queue[1..] {
        assert [queue[0]] + queue[1..] == queue;
      } else {
        assert [queue[0]] + (queue[1..][..rest] + queue[1..][rest + 1..]) == queue[..k] + queue[k + 1..];
      }
    }
  }

  lemma ServeKeepsOrder(l: Lane)
    requires InOrder(l) && l.queue != []
    ensures InOrder(Serve(l))
  {
  }

  lemma {:induction false} PumpKeepsOrder(l: Lane)
    requires InOrder(l) && l.bucket.ratePerSecond > 0.0
    ensures InOrder(Pump(l)) && NoLostWakeUp(Pump(l))
    decreases |l.queue|
  {
    if l.queue != [] && l.bucket.tokens >= 1.0 {
      ServeKeepsOrder(l);
      PumpKeepsOrder(Serve(l));
    }
  }

  lemma SameOrder(l: Lane, m: Lane)
    requires InOrder(l) && m.log == l.log && m.queue == l.queue && m.arrivals == l.arrivals
    ensures InOrder(m)
  {
  }

  lemma JoinKeepsOrder(l: Lane, estimate: int)
    requires InOrder(l)
    ensures InOrder(Join(l, estimate)) && InOrder(l.(arrivals := l.arrivals + 1))
  {
  }

  lemma DirectKeepsOrder(l: Lane)
    requires InOrder(l) && l.queue == []
    ensures InOrder(Direct(l)) && (l.sub.Some? ==> InOrder(DirectShared(l)))
  {
  }

  lemma LeaveKeepsOrder(l: Lane, id: nat, now: int)
    requires InOrder(l) && NoLostWakeUp(l)
    ensures InOrder(l.(queue := Without(l.queue, id), now := now))
    ensures NoLostWakeUp(l.(queue := Without(l.queue, id), now := now))
  {
    var k := WithoutDropsOne(l.queue, id);
    var left := Without(l.queue, id);
    if left != l.queue {
      assert forall i :: 0 <= i < k ==> left[i] == l.queue[i];
      assert forall i :: k <= i < |left| ==> left[i] == l.queue[i + 1];
    }
    hide Without;
  }

  lemma StepKeepsOrder(l: Lane, e: Event)
    requires l.BucketsOk() && InOrder(l) && NoLostWakeUp(l) && Possible(l, e)
    ensures InOrder(Happen(l, e)) && NoLostWakeUp(Happen(l, e))
  {
    hide Credit, Pump, MsUntil, InOrder;
    StepKeepsBuckets(l, e);
    if e.Leave? {
      LeaveKeepsOrder(l, e.id, e.now);
    } else if e.Wake? {
      SameOrder(l, AtTime(l, e.now));
      SameOrder(l, l.(pumping := false, now := e.now));
      PumpKeepsOrder(AtTime(l, e.now));
    } else if e.aborted {
      JoinKeepsOrder(l, 0);
      SameOrder(l.(arrivals := l.arrivals + 1), Happen(l, e));
    } else if e.priority.Unauthenticated? && l.sub.Some? {
      var both := AtTime(l, e.now).(sub := Some(Refill(l.sub.value, e.now)));
      SameOrder(l, both);
      JoinKeepsOrder(both, 0);
      if l.queue == [] {
        DirectKeepsOrder(both);
      }
    } else {
      var filled := AtTime(l, e.now);
      SameOrder(l, filled);
      if l.queue == [] {
        DirectKeepsOrder(filled);
      }
      var joined := Join(filled, MsUntil(filled.bucket, |l.queue| + 1));
      JoinKeepsOrder(filled, MsUntil(filled.bucket, |l.queue| + 1));
      PumpKeepsOrder(joined);
    }
  }

  /** First come, first served, and no lost wake-up, in every run, whoever leaves and however late sleeps end. */
  lemma {:induction false} ServedInOrder(l: Lane, events: seq<Event>)
    requires l.BucketsOk() && InOrder(l) && NoLostWakeUp(l) && CanRun(l, events)
    ensures InOrder(RunAll(l, events)) && NoLostWakeUp(RunAll(l, events))
    decreases |events|
  {
    hide InOrder, Happen;
    if events != [] {
      StepKeepsBuckets(l, events[0]);
      StepKeepsOrder(l, events[0]);
      ServedInOrder(Happen(l, events[0]), events[1..]);
    }
  }

  predicate Served(l: Lane, w: Waiter) {
    exists i :: 0 <= i < |l.log| && l.log[i].id == w.id
  }

  lemma {:induction false} PumpLosesNobody(l: Lane, w: Waiter)
    requires l.bucket.ratePerSecond > 0.0 && (w in l.queue || Served(l, w))
    ensures w in Pump(l).queue || Served(Pump(l), w)
    decreases |l.queue|
  {
    if l.queue != [] && l.bucket.tokens >= 1.0 {
      var next := Serve(l);
      if Served(l, w) {
        var i :| 0 <= i < |l.log| && l.log[i].id == w.id;
        assert next.log[i].id == w.id;
      } else if w == l.queue[0] {
        assert next.log[|l.log|].id == w.id;
      }
      PumpLosesNobody(next, w);
    }
  }

  /** A queued caller stays queued until it gets a token or leaves by itself. */
  lemma NobodyIsLost(l: Lane, e: Event, w: Waiter)
    requires l.BucketsOk() && Possible(l, e) && NoLostWakeUp(l) && w in l.queue
    ensures w in Happen(l, e).queue || Served(Happen(l, e), w) || (e.Leave? && e.id == w.id)
  {
    hide Credit;
    StepKeepsBuckets(l, e);
    if e.Leave? {
      var k := WithoutDropsOne(l.queue, e.id);
    } else if e.Wake? {
      PumpLosesNobody(AtTime(l, e.now), w);
    }
  }

  /* ----- Waiting times ----- */

  function Wait(b: Bucket): int
    requires b.ratePerSecond > 0.0
  {
    MsUntil(b, 1)
  }

  /** The longest pause between two tokens. */
  function Gap(b: Bucket): int
    requires b.ratePerSecond > 0.0
  {
    Ceil(Ms(b.ratePerSecond, 1.0))
  }

  /** What the sleeping pump relies on: no token before `wakeAt`, and less than a millisecond's tokens beyond one then. */
  ghost predicate AsleepUntil(b: Bucket, wakeAt: int) {
    && b.Ok()
    && b.at <= wakeAt <= b.at + Wait(b)
    && b.tokens + Credit(b.ratePerSecond, wakeAt - b.at) < 1.0 + Credit(b.ratePerSecond, 1)
  }

  lemma WaitBounds(b: Bucket)
    requires b.Ok()
    ensures Wait(b) >= 0 && Gap(b) >= 0
    ensures b.tokens < 1.0 ==> Wait(b) as real < Ms(b.ratePerSecond, 1.0 - b.tokens) + 1.0
    ensures Gap(b) as real < Ms(b.ratePerSecond, 1.0) + 1.0
  {
    hide Ms;
    MsGrows(b.ratePerSecond, 1.0 - b.tokens);
    MsGrows(b.ratePerSecond, 1.0);
  }

  lemma FallAsleep(b: Bucket)
    requires b.Ok() && b.tokens < 1.0
    ensures AsleepUntil(b, b.at + Wait(b))
  {
    WaitBounds(b);
    var wait := Wait(b);
    var room := 1.0 - b.tokens;
    var rate := b.ratePerSecond;
    assert wait as real - 1.0 < room * 1000.0 / rate;
    assert (wait as real - 1.0) * rate < room * 1000.0 by {
      assert (room * 1000.0 / rate) * rate == room * 1000.0;
      Scale(wait as real - 1.0, room * 1000.0 / rate, rate);
    }
  }

  lemma Scale(x: real, y: real, k: real)
    requires x < y && k > 0.0
    ensures x * k < y * k
  {
  }

  lemma WaitAfterTake(b: Bucket)
    requires b.Ok() && b.tokens >= 1.0
    ensures Wait(Take(b)) <= Gap(b)
  {
    hide Ms;
    MsGrows(b.ratePerSecond, b.tokens - 1.0);
    MsGrows(b.ratePerSecond, 1.0);
    MsAdds(b.ratePerSecond, 1.0 - (b.tokens - 1.0), b.tokens - 1.0);
  }

  /** Refilling while the pump sleeps brings the next token no later and the wake-up no earlier. */
  lemma RefillKeepsSleep(b: Bucket, wakeAt: int, now: int)
    requires AsleepUntil(b, wakeAt) && b.at <= now <= wakeAt
    ensures AsleepUntil(Refill(b, now), wakeAt)
    ensures now + Wait(Refill(b, now)) <= b.at + Wait(b)
  {
    hide Ms, Credit;
    var rate, d := b.ratePerSecond, now - b.at;
    RefillOk(b, now);
    var r := Refill(b, now);
    CreditAdds(rate, d, wakeAt - now);
    assert d + (wakeAt - now) == wakeAt - b.at;
    MsOfCredit(rate, d);
    if b.tokens >= 1.0 {
      assert now == b.at;
      RefillTwice(b, now);
    } else if r.tokens < 1.0 {
      MsAdds(rate, 1.0 - r.tokens, Credit(rate, d));
      assert 1.0 - r.tokens + Credit(rate, d) == 1.0 - b.tokens;
    } else {
      MsAdds(rate, 1.0 - b.tokens, Credit(rate, d) - (1.0 - b.tokens));
      MsGrows(rate, Credit(rate, d) - (1.0 - b.tokens));
    }
  }

  /** `MsUntil` is the first millisecond with `count` tokens in the bucket. */
  lemma EstimateIsExact(b: Bucket, count: nat, t: int)
    requires b.Ok() && count as real <= b.capacity && t >= b.at
    ensures Refill(b, t).tokens >= count as real <==> t >= b.at + MsUntil(b, count)
  {
    hide Ms, Credit;
    var rate, d := b.ratePerSecond, t - b.at;
    var short := count as real - b.tokens;
    MsOfCredit(rate, d);
    CreditGrows(rate, d);
    MsAdds(rate, short, Credit(rate, d) - short);
    assert short + (Credit(rate, d) - short) == Credit(rate, d);
    MsGrows(rate, Credit(rate, d) - short);
    MsGrows(rate, short);
  }

  /** A caller admitted at position `k` is served before its estimate plus `k` milliseconds are over. */
  lemma JoinInTime(b: Bucket, k: nat)
    requires b.Ok() && k >= 1 && b.tokens < 1.0 + Credit(b.ratePerSecond, 1)
    ensures Wait(b) + (k - 1) * Gap(b) <= MsUntil(b, k) + k
  {
    hide Ms, Credit;
    var rate := b.ratePerSecond;
    WaitBounds(b);
    var each := Ms(rate, 1.0);
    var n := k - 1;
    var gaps := n * Gap(b);
    GapsBound(n, Gap(b), each);
    EstimateAtLeast(b, k);
    MsTimes(rate, k);
    if b.tokens < 1.0 {
      MsAdds(rate, 1.0 - b.tokens, b.tokens);
    } else {
      var spare := 1.0 + Credit(rate, 1) - b.tokens;
      MsAdds(rate, b.tokens, spare);
      assert b.tokens + spare == 1.0 + Credit(rate, 1);
      MsAdds(rate, 1.0, Credit(rate, 1));
      MsOfCredit(rate, 1);
      MsGrows(rate, spare);
      assert Ms(rate, b.tokens) < each + 1.0;
      assert gaps as real < (MsUntil(b, k) + k) as real;
    }
  }

  lemma GapsBound(n: nat, gap: int, each: real)
    requires gap as real < each + 1.0
    ensures (n * gap) as real <= n as real * each + n as real
  {
    ScaleWeakly(gap as real, each + 1.0, n as real);
    assert (n * gap) as real == gap as real * n as real;
  }

  lemma ScaleWeakly(x: real, y: real, k: real)
    requires x < y && k >= 0.0
    ensures x * k <= y * k
  {
  }

  lemma EstimateAtLeast(b: Bucket, k: nat)
    requires b.Ok()
    ensures MsUntil(b, k) as real >= Ms(b.ratePerSecond, k as real) - Ms(b.ratePerSecond, b.tokens)
  {
    hide Ms;
    MsAdds(b.ratePerSecond, k as real - b.tokens, b.tokens);
    MsGrows(b.ratePerSecond, k as real - b.tokens);
  }

  /** Every queued caller can still be served in time. */
  ghost predicate QueueInTime(b: Bucket, queue: seq<Waiter>)
    requires b.Ok()
  {
    forall i :: 0 <= i < |queue| ==> b.at + Wait(b) + i * Gap(b) <= queue[i].Deadline()
  }

  ghost predicate LogInTime(log: seq<Grant>) {
    forall i :: 0 <= i < |log| && log[i].deadline.Some? ==> log[i].time <= log[i].deadline.value
  }

  ghost predicate InTime(l: Lane) {
    && l.BucketsOk() && NoLostWakeUp(l)
    && (l.pumping ==> AsleepUntil(l.bucket, l.wakeAt) && l.now <= l.wakeAt)
    && QueueInTime(l.bucket, l.queue)
    && LogInTime(l.log)
  }

  lemma ServeInTime(l: Lane)
    requires l.BucketsOk() && l.bucket.at == l.now && l.bucket.tokens >= 1.0 && l.queue != []
    requires QueueInTime(l.bucket, l.queue) && LogInTime(l.log)
    ensures QueueInTime(Serve(l).bucket, Serve(l).queue) && LogInTime(Serve(l).log)
  {
    hide Ms;
    WaitAfterTake(l.bucket);
    var gap := Gap(l.bucket);
    var next := Serve(l);
    assert l.now + Wait(l.bucket) + 0 * gap <= l.queue[0].Deadline();
    forall i | 0 <= i < |next.queue|
      ensures next.bucket.at + Wait(next.bucket) + i * gap <= next.queue[i].Deadline()
    {
      assert next.queue[i] == l.queue[i + 1];
      assert (i + 1) * gap == i * gap + gap;
    }
  }

  lemma {:induction false} PumpInTime(l: Lane)
    requires l.BucketsOk() && l.bucket.at == l.now && QueueInTime(l.bucket, l.queue) && LogInTime(l.log)
    ensures InTime(Pump(l))
    decreases |l.queue|
  {
    hide Ms, Credit, QueueInTime, LogInTime, AsleepUntil;
    if l.queue == [] {
    } else if l.bucket.tokens < 1.0 {
      FallAsleep(l.bucket);
      WaitBounds(l.bucket);
    } else {
      ServeInTime(l);
      PumpInTime(Serve(l));
    }
  }

  /** Refilling the bucket of a lane whose pump is not overdue. */
  lemma RefillInTime(l: Lane, now: int)
    requires InTime(l) && l.now <= now && (l.pumping ==> now <= l.wakeAt)
    ensures InTime(AtTime(l, now)) && AtTime(l, now).bucket.at == now
    ensures l.sub.Some? ==> InTime(AtTime(l, now).(sub := Some(Refill(l.sub.value, now))))
  {
    hide Ms, Credit, AsleepUntil, LogInTime;
    RefillOk(l.bucket, now);
    if l.sub.Some? {
      RefillOk(l.sub.value, now);
    }
    if l.pumping {
      RefillKeepsSleep(l.bucket, l.wakeAt, now);
      var r := Refill(l.bucket, now);
      assert Gap(r) == Gap(l.bucket);
      forall i | 0 <= i < |l.queue|
        ensures r.at + Wait(r) + i * Gap(r) <= l.queue[i].Deadline()
      {
        assert l.bucket.at + Wait(l.bucket) + i * Gap(l.bucket) <= l.queue[i].Deadline();
      }
    }
  }

  /** Taking a token with an empty queue, before the sleeping pump could. */
  lemma TakeKeepsSleep(b: Bucket, wakeAt: int)
    requires AsleepUntil(b, wakeAt) && b.tokens >= 1.0
    ensures AsleepUntil(Take(b), wakeAt)
  {
    hide Ms, Credit;
    WaitBounds(Take(b));
  }

  lemma JoinKeepsTime(l: Lane)
    requires InTime(l) && l.bucket.at == l.now && (l.queue == [] ==> l.bucket.tokens < 1.0)
    ensures var joined := Join(l, MsUntil(l.bucket, |l.queue| + 1));
            QueueInTime(joined.bucket, joined.queue) && LogInTime(joined.log)
  {
    hide Ms, Credit;
    var k := |l.queue| + 1;
    CreditGrows(l.bucket.ratePerSecond, 1);
    if l.pumping {
      CreditGrows(l.bucket.ratePerSecond, l.wakeAt - l.bucket.at);
    }
    JoinInTime(l.bucket, k);
    var joined := Join(l, MsUntil(l.bucket, k));
    forall i | 0 <= i < |joined.queue|
      ensures l.bucket.at + Wait(l.bucket) + i * Gap(l.bucket) <= joined.queue[i].Deadline()
    {
      if i < |l.queue| {
        assert joined.queue[i] == l.queue[i];
      }
    }
  }

  lemma LeaveInTime(l: Lane, id: nat, now: int)
    requires InTime(l) && l.now <= now && (l.pumping ==> now <= l.wakeAt)
    ensures InTime(l.(queue := Without(l.queue, id), now := now))
  {
    hide Ms, Credit;
    var k := WithoutDropsOne(l.queue, id);
    var rest := Without(l.queue, id);
    WaitBounds(l.bucket);
    var gap := Gap(l.bucket);
    forall i | 0 <= i < |rest|
      ensures l.bucket.at + Wait(l.bucket) + i * gap <= rest[i].Deadline()
    {
      var from := if rest == l.queue || i < k then i else i + 1;
      assert rest[i] == l.queue[from];
      assert (i + 1) * gap == i * gap + gap;
      assert l.bucket.at + Wait(l.bucket) + from * gap <= l.queue[from].Deadline();
    }
  }

  lemma CallInTime(l: Lane, e: Event)
    requires InTime(l) && Possible(l, e) && Timely(l, e) && e.Call? && !e.aborted
    ensures InTime(Happen(l, e))
  {
    hide Ms, Credit, AsleepUntil, Pump, MsUntil, Refill;
    RefillInTime(l, e.now);
    var filled := AtTime(l, e.now);
    if e.priority.Unauthenticated? && l.sub.Some? {
      var both := filled.(sub := Some(Refill(l.sub.value, e.now)));
      if both.pumping && both.bucket.tokens >= 1.0 {
        TakeKeepsSleep(both.bucket, both.wakeAt);
      }
    } else if l.queue == [] && filled.bucket.tokens >= 1.0 {
      if filled.pumping {
        TakeKeepsSleep(filled.bucket, filled.wakeAt);
      }
    } else {
      JoinKeepsTime(filled);
      var joined := Join(filled, MsUntil(filled.bucket, |l.queue| + 1));
      PumpInTime(joined);
    }
  }

  lemma StepInTime(l: Lane, e: Event)
    requires InTime(l) && Possible(l, e) && Timely(l, e)
    ensures InTime(Happen(l, e))
  {
    hide Ms, Credit, AsleepUntil, Pump, MsUntil, QueueInTime, LogInTime;
    if e.Leave? {
      LeaveInTime(l, e.id, e.now);
    } else if e.Wake? {
      RefillInTime(l, e.now);
      PumpInTime(AtTime(l, e.now));
    } else if !e.aborted {
      CallInTime(l, e);
    }
  }

  /** Every event of the run comes before a sleep that should have ended. */
  ghost predicate OnSchedule(l: Lane, events: seq<Event>)
    requires l.BucketsOk() && CanRun(l, events)
    decreases |events|
  {
    events != [] ==>
      Timely(l, events[0]) && (StepKeepsBuckets(l, events[0]); OnSchedule(Happen(l, events[0]), events[1..]))
  }

  lemma {:induction false} RunInTime(l: Lane, events: seq<Event>)
    requires InTime(l) && CanRun(l, events) && OnSchedule(l, events)
    ensures InTime(RunAll(l, events))
    decreases |events|
  {
    hide Happen, QueueInTime, LogInTime, AsleepUntil, NoLostWakeUp;
    if events != [] {
      StepKeepsBuckets(l, events[0]);
      StepInTime(l, events[0]);
      RunInTime(Happen(l, events[0]), events[1..]);
    }
  }

  /**
   * When sleeps end on time, a caller admitted at position k with estimate m gets its token within m + k
   * milliseconds, and nobody still queued is past that.
   */
  lemma ServedInTime(rate: real, burst: real, share: Option<real>, maxWaitMs: int, start: int, events: seq<Event>)
    requires burst >= 1.0 && rate > 0.0 && (share.Some? ==> 0.0 < share.value < 1.0)
    requires CanRun(NewLane(rate, burst, share, maxWaitMs, start), events)
    requires OnSchedule(NewLane(rate, burst, share, maxWaitMs, start), events)
    ensures var l := RunAll(NewLane(rate, burst, share, maxWaitMs, start), events);
            && (forall i :: 0 <= i < |l.log| && l.log[i].deadline.Some? ==> l.log[i].time <= l.log[i].deadline.value)
            && (forall i :: 0 <= i < |l.queue| ==> l.now <= l.queue[i].Deadline())
  {
    hide Ms, Credit, CanRun, OnSchedule;
    var first := NewLane(rate, burst, share, maxWaitMs, start);
    RunInTime(first, events);
    var l := RunAll(first, events);
    WaitBounds(l.bucket);
    forall i | 0 <= i < |l.queue|
      ensures l.now <= l.queue[i].Deadline()
    {
      assert l.bucket.at + Wait(l.bucket) + i * Gap(l.bucket) <= l.queue[i].Deadline();
      assert i * Gap(l.bucket) >= 0;
    }
  }
}
