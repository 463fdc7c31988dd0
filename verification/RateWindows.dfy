/** packages/db/src/rate-limit.ts: how many tokens a lane hands out in any stretch of time, over all runs. */
module RateWindows {
  import opened Wrappers
  import opened Numbers
  import opened RateLimit

  predicate InWindow(g: Grant, from: int, to: int) {
    from <= g.time <= to
  }

  /** Tokens handed out from `from` to `to`. */
  function CountIn(log: seq<Grant>, from: int, to: int): nat {
    if log == [] then 0
    else CountIn(log[..|log| - 1], from, to) + if InWindow(log[|log| - 1], from, to) then 1 else 0
  }

  /** Of these, the ones of unauthenticated callers. */
  function CountShared(log: seq<Grant>, from: int, to: int): nat {
    if log == [] then 0
    else
      var last := log[|log| - 1];
      CountShared(log[..|log| - 1], from, to) + if InWindow(last, from, to) && last.shared then 1 else 0
  }

  lemma CountPush(log: seq<Grant>, g: Grant, from: int, to: int)
    ensures CountIn(log + [g], from, to) == CountIn(log, from, to) + if InWindow(g, from, to) then 1 else 0
    ensures CountShared(log + [g], from, to) ==
            CountShared(log, from, to) + if InWindow(g, from, to) && g.shared then 1 else 0
  {
    assert (log + [g])[..|log|] == log;
  }

  ghost predicate WindowsOk(l: Lane, from: int, to: int) {
    && l.BucketsOk()
    && WindowOk(l.bucket, CountIn(l.log, from, to), from, to)
    && (l.sub.Some? ==> WindowOk(l.sub.value, CountShared(l.log, from, to), from, to))
  }

  /** What a lane never changes. */
  predicate SameLimits(l: Lane, m: Lane) {
    && l.bucket.capacity == m.bucket.capacity && l.bucket.ratePerSecond == m.bucket.ratePerSecond
    && l.sub.Some? == m.sub.Some?
    && (l.sub.Some? ==> l.sub.value.capacity == m.sub.value.capacity
                        && l.sub.value.ratePerSecond == m.sub.value.ratePerSecond)
  }

  lemma RefillKeepsWindows(l: Lane, from: int, to: int, now: int)
    requires WindowsOk(l, from, to) && from <= to && l.now <= now
    ensures WindowsOk(AtTime(l, now), from, to) && AtTime(l, now).bucket.at == now
    ensures l.sub.Some? ==> WindowsOk(AtTime(l, now).(sub := Some(Refill(l.sub.value, now))), from, to)
  {
    hide Credit, WindowOk;
    assert WindowOk(l.bucket, CountIn(l.log, from, to), from, to);
    RefillKeepsWindow(l.bucket, CountIn(l.log, from, to), from, to, now);
    RefillOk(l.bucket, now);
    if l.sub.Some? {
      RefillKeepsWindow(l.sub.value, CountShared(l.log, from, to), from, to, now);
      RefillOk(l.sub.value, now);
    }
  }

  lemma DirectKeepsWindows(l: Lane, from: int, to: int)
    requires WindowsOk(l, from, to) && l.bucket.at == l.now && l.bucket.tokens >= 1.0
    ensures WindowsOk(Direct(l), from, to)
  {
    hide WindowOk;
    TakeKeepsWindow(l.bucket, CountIn(l.log, from, to), from, to);
    CountPush(l.log, Grant(l.now, l.arrivals, false, None), from, to);
  }

  lemma ServeKeepsWindows(l: Lane, from: int, to: int)
    requires WindowsOk(l, from, to) && l.bucket.at == l.now && l.bucket.tokens >= 1.0 && l.queue != []
    ensures WindowsOk(Serve(l), from, to)
  {
    hide WindowOk;
    TakeKeepsWindow(l.bucket, CountIn(l.log, from, to), from, to);
    CountPush(l.log, Grant(l.now, l.queue[0].id, false, Some(l.queue[0].Deadline())), from, to);
  }

  lemma SharedKeepsWindows(l: Lane, from: int, to: int)
    requires WindowsOk(l, from, to) && l.bucket.at == l.now && l.bucket.tokens >= 1.0
    requires l.sub.Some? && l.sub.value.at == l.now && l.sub.value.tokens >= 1.0
    ensures WindowsOk(DirectShared(l), from, to)
  {
    hide WindowOk;
    TakeKeepsWindow(l.bucket, CountIn(l.log, from, to), from, to);
    TakeKeepsWindow(l.sub.value, CountShared(l.log, from, to), from, to);
    CountPush(l.log, Grant(l.now, l.arrivals, true, None), from, to);
  }

  lemma {:induction false} PumpKeepsWindows(l: Lane, from: int, to: int)
    requires WindowsOk(l, from, to) && l.bucket.at == l.now
    ensures WindowsOk(Pump(l), from, to) && SameLimits(Pump(l), l)
    decreases |l.queue|
  {
    if l.queue != [] && l.bucket.tokens >= 1.0 {
      ServeKeepsWindows(l, from, to);
      PumpKeepsWindows(Serve(l), from, to);
    }
  }

  lemma SharedCallKeepsWindows(l: Lane, now: int, from: int, to: int)
    requires WindowsOk(l, from, to) && from <= to && l.now <= now && l.sub.Some?
    ensures WindowsOk(AcquireShared(l, now).0, from, to) && SameLimits(AcquireShared(l, now).0, l)
  {
    hide Credit, WindowOk;
    RefillKeepsWindows(l, from, to, now);
    var both := AtTime(l, now).(sub := Some(Refill(l.sub.value, now)));
    if both.bucket.tokens >= 1.0 && both.sub.value.tokens >= 1.0 {
      SharedKeepsWindows(both, from, to);
    }
  }

  lemma QueuedCallKeepsWindows(l: Lane, now: int, from: int, to: int)
    requires WindowsOk(l, from, to) && from <= to && l.now <= now
    ensures WindowsOk(AcquireQueued(l, now).0, from, to) && SameLimits(AcquireQueued(l, now).0, l)
  {
    hide Credit, WindowOk, Pump;
    RefillKeepsWindows(l, from, to, now);
    var filled := AtTime(l, now);
    if l.queue == [] && filled.bucket.tokens >= 1.0 {
      DirectKeepsWindows(filled, from, to);
    } else {
      PumpKeepsWindows(Join(filled, MsUntil(filled.bucket, |l.queue| + 1)), from, to);
    }
  }

  lemma StepKeepsWindows(l: Lane, e: Event, from: int, to: int)
    requires WindowsOk(l, from, to) && from <= to && Possible(l, e)
    ensures WindowsOk(Happen(l, e), from, to) && SameLimits(Happen(l, e), l)
  {
    hide Credit, WindowOk, Pump, AcquireShared, AcquireQueued;
    if e.Wake? {
      RefillKeepsWindows(l, from, to, e.now);
      PumpKeepsWindows(AtTime(l, e.now), from, to);
    } else if e.Call? && !e.aborted {
      if e.priority.Unauthenticated? && l.sub.Some? {
        SharedCallKeepsWindows(l, e.now, from, to);
      } else {
        QueuedCallKeepsWindows(l, e.now, from, to);
      }
    }
  }

  lemma {:induction false} RunKeepsWindows(l: Lane, events: seq<Event>, from: int, to: int)
    requires WindowsOk(l, from, to) && from <= to && CanRun(l, events)
    ensures WindowsOk(RunAll(l, events), from, to) && SameLimits(RunAll(l, events), l)
    decreases |events|
  {
    hide WindowOk, Happen;
    if events != [] {
      StepKeepsWindows(l, events[0], from, to);
      RunKeepsWindows(Happen(l, events[0]), events[1..], from, to);
    }
  }

  /**
   * The budget of a lane: in any run, with sleeps of any length, and in any window, at most the burst
   * plus what the rate brings, and for unauthenticated callers the same of their share.
   */
  lemma LaneBudget(rate: real, burst: real, share: Option<real>, maxWaitMs: int, start: int,
                   events: seq<Event>, from: int, to: int)
    requires burst >= 1.0 && rate > 0.0 && (share.Some? ==> 0.0 < share.value < 1.0) && from <= to
    requires CanRun(NewLane(rate, burst, share, maxWaitMs, start), events)
    ensures var log := RunAll(NewLane(rate, burst, share, maxWaitMs, start), events).log;
            && CountIn(log, from, to) as real <= burst + (to - from) as real * rate / 1000.0
            && (share.Some? ==>
                  CountShared(log, from, to) as real <=
                  Max(1, (burst * share.value).Floor) as real + (to - from) as real * (rate * share.value) / 1000.0)
  {
    hide RunAll, CanRun;
    var l := NewLane(rate, burst, share, maxWaitMs, start);
    var end := RunAll(l, events);
    FullBucketsWithin(l, from, to);
    RunKeepsWindows(l, events, from, to);
    WindowBound(end.bucket, CountIn(end.log, from, to), from, to);
    if share.Some? {
      WindowBound(end.sub.value, CountShared(end.log, from, to), from, to);
    }
  }

  lemma FullBucketsWithin(l: Lane, from: int, to: int)
    requires l.BucketsOk() && l.log == [] && from <= to
    ensures WindowsOk(l, from, to)
  {
    hide Credit;
    FullWithin(l.bucket, from, to);
    if l.sub.Some? {
      FullWithin(l.sub.value, from, to);
    }
  }

  lemma FullWithin(b: Bucket, from: int, to: int)
    requires b.Ok() && from <= to
    ensures WindowOk(b, 0, from, to)
  {
    hide Credit;
    MoreTime(b, 0, to - from);
    if from <= b.at {
      MoreTime(b, 0, b.at - from);
    }
  }

  /* ----- Worker processes ----- */

  const WORKER_BURST := 4.0
  const WORKER_MAX_WAIT_MS := 120_000

  /** One second's request, divided over the queue family's processes. */
  function WorkerRate(processes: nat): real
    requires processes >= 1
  {
    1.0 / processes as real
  }

  function WorkerBudget(processes: nat, ms: int): real
    requires processes >= 1
  {
    WORKER_BURST + ms as real * WorkerRate(processes) / 1000.0
  }

  /** What one process does: when it starts and what happens on its lane. */
  datatype Process = Process(start: int, events: seq<Event>)

  ghost predicate WorkerRuns(p: Process, processes: nat)
    requires processes >= 1
  {
    var l := NewLane(WorkerRate(processes), WORKER_BURST, None, WORKER_MAX_WAIT_MS, p.start);
    CanRun(l, p.events)
  }

  function WorkerCount(p: Process, processes: nat, from: int, to: int): nat
    requires processes >= 1 && WorkerRuns(p, processes)
  {
    CountIn(RunAll(NewLane(WorkerRate(processes), WORKER_BURST, None, WORKER_MAX_WAIT_MS, p.start), p.events).log,
            from, to)
  }

  function TotalCount(ps: seq<Process>, processes: nat, from: int, to: int): nat
    requires processes >= 1 && forall i :: 0 <= i < |ps| ==> WorkerRuns(ps[i], processes)
  {
    if ps == [] then 0
    else TotalCount(ps[..|ps| - 1], processes, from, to) + WorkerCount(ps[|ps| - 1], processes, from, to)
  }

  lemma {:induction false} WorkersTogether(ps: seq<Process>, processes: nat, from: int, to: int)
    requires processes >= 1 && from <= to && forall i :: 0 <= i < |ps| ==> WorkerRuns(ps[i], processes)
    ensures TotalCount(ps, processes, from, to) as real <=
            |ps| as real * WorkerBudget(processes, to - from)
  {
    hide WorkerRuns, WorkerCount, WorkerBudget;
    if ps != [] {
      WorkersTogether(ps[..|ps| - 1], processes, from, to);
      OneWorker(ps[|ps| - 1], processes, from, to);
      var each := WorkerBudget(processes, to - from);
      assert |ps| as real * each == (|ps| - 1) as real * each + each;
    }
  }

  lemma OneWorker(p: Process, processes: nat, from: int, to: int)
    requires processes >= 1 && from <= to && WorkerRuns(p, processes)
    ensures WorkerCount(p, processes, from, to) as real <= WorkerBudget(processes, to - from)
  {
    hide RunAll, CanRun, CountIn;
    assert WorkerRate(processes) > 0.0;
    LaneBudget(WorkerRate(processes), WORKER_BURST, None, WORKER_MAX_WAIT_MS, p.start, p.events, from, to);
  }

  /** All processes of the family together: one request a second over any window, plus everybody's burst. */
  lemma WorkerFamilyBudget(ps: seq<Process>, from: int, to: int)
    requires |ps| >= 1 && from <= to && forall i :: 0 <= i < |ps| ==> WorkerRuns(ps[i], |ps|)
    ensures TotalCount(ps, |ps|, from, to) as real <= |ps| as real * 4.0 + (to - from) as real / 1000.0
  {
    hide WorkerRuns, TotalCount;
    WorkersTogether(ps, |ps|, from, to);
    ShareOfOne(|ps|, to - from);
  }

  lemma ShareOfOne(n: nat, ms: int)
    requires n >= 1
    ensures n as real * WorkerBudget(n, ms) == n as real * WORKER_BURST + ms as real / 1000.0
  {
    var d := ms as real;
    assert n as real * WorkerRate(n) == 1.0;
    assert n as real * (d * WorkerRate(n)) == d;
    assert n as real * (d * WorkerRate(n) / 1000.0) == n as real * (d * WorkerRate(n)) / 1000.0;
  }
}
