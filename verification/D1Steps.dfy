/**
 * packages/db/src/d1-rest-client.ts and circuit-breaker.ts: what ends a call before it is sent, told from earlier
 * answers and from tokens, and what each answer does to the circuit.
 */
module D1Steps {
  import opened Wrappers
  import opened Numbers
  import opened D1Circuit
  import opened D1Counters
  import opened D1Client
  import opened D1Safety
  import opened D1Runs
  import opened D1Outcomes
  import Rate = RateLimit
  import RateAdmission
  import RateQueue

  /* ----- The circuit ----- */

  /** Some earlier answer to anybody asked not to send at `at`; before time 0 nobody may. */
  ghost predicate IsBlocked(s: State, at: int) {
    at < 0 || exists i :: 0 <= i < |s.history| && s.history[i].Blocked? && at < s.history[i].until
  }

  /** The circuit is open for a reason. */
  ghost predicate HasReason(s: State) {
    s.circuit.openUntil >= 0 &&
    (s.circuit.openUntil > 0 ==> exists i :: 0 <= i < |s.history| && s.history[i] == Blocked(s.circuit.openUntil))
  }

  lemma OpenMeansBlocked(s: State, at: int)
    requires CircuitOk(s) && HasReason(s)
    ensures IsOpen(s.circuit, at) <==> IsBlocked(s, at)
  {
    hide NoRequestWhileBlocked;
  }

  lemma SameReason(s: State, t: State)
    requires HasReason(s) && t.circuit.openUntil == s.circuit.openUntil && s.history <= t.history
    ensures HasReason(t)
  {
    if s.circuit.openUntil > 0 {
      var i :| 0 <= i < |s.history| && s.history[i] == Blocked(s.circuit.openUntil);
      assert t.history[i] == s.history[i];
    }
  }

  lemma OpenKeepsReason(s: State, ms: int, at: int)
    requires HasReason(s)
    ensures HasReason(BlockedFor(s, ms, at))
  {
    var t := BlockedFor(s, ms, at);
    if t.circuit.openUntil == s.circuit.openUntil {
      SameReason(s, t);
    } else {
      assert t.history[|s.history|] == Blocked(t.circuit.openUntil);
    }
  }

  lemma ObserveKeepsReason(s: State, policies: seq<Policy>, at: int)
    requires HasReason(s)
    ensures HasReason(Observed(s, policies, at))
  {
    hide Observe, Blocks, Lowest, CountRemaining;
    ObserveOpens(s.circuit, policies, at);
    var t, times := Observed(s, policies, at), Blocks(policies, s.circuit.reserveRequests, at);
    if t.circuit.openUntil == s.circuit.openUntil {
      SameReason(s, t);
    } else {
      var i :| 0 <= i < |times| && times[i] == t.circuit.openUntil;
      assert t.history[|s.history| + i] == Blocked(times[i]);
    }
  }

  lemma StepKeepsReason(s: State, l: Label, tables: seq<string>)
    requires HasReason(s) && s.lane.BucketsOk() && Enabled(s, l)
    ensures HasReason(Next(s, l, tables))
  {
    hide HasReason, Rate.Happen, Rate.Acquire, Accepts, ReadOnlyWork, Observed, Waited;
    var t := Next(s, l, tables);
    if l.Answer? && l.reply.Http? {
      var seen := Observed(s, l.reply.policies, l.at);
      var ms := RetryMs(l.reply.retryAfter, l.at);
      ObserveKeepsReason(s, l.reply.policies, l.at);
      OpenKeepsReason(seen, ms, l.at);
      SameReason(if l.reply.status == 429 then BlockedFor(seen, ms, l.at) else seen, t);
    } else {
      SameReason(s, t);
    }
  }

  lemma {:induction false} RunKeepsReason(s: State, labels: seq<Label>, tables: seq<string>)
    requires Sound(s) && HasReason(s) && CanRun(s, labels, tables)
    ensures HasReason(RunAll(s, labels, tables))
    decreases |labels|
  {
    hide Next, Enabled, HasReason;
    if labels != [] {
      StepIsSound(s, labels[0], tables);
      StepKeepsReason(s, labels[0], tables);
      RunKeepsReason(Next(s, labels[0], tables), labels[1..], tables);
    }
  }

  /** In every run the circuit is open exactly while some answer blocks. */
  lemma CircuitIsReasoned(p: Process, labels: seq<Label>, at: int)
    requires p.Ok() && p.Runs(labels)
    ensures IsOpen(p.Last(labels).circuit, at) <==> IsBlocked(p.Last(labels), at)
  {
    hide CanRun, RunAll, IsBlocked, HasReason, IsOpen, CallsOk, CountsOk;
    FirstHasReason(p);
    LastInv(p, labels, p.start);
    RunKeepsReason(p.First(), labels, p.tables);
    OpenMeansBlocked(p.Last(labels), at);
  }

  lemma FirstHasReason(p: Process)
    requires p.Ok()
    ensures HasReason(p.First())
  {
  }

  /* ----- What an answer does to the circuit ----- */

  /** `ms` kept between a second and an hour. */
  predicate IsKeptBetween(w: int, ms: int) {
    if ms < 1_000 then w == 1_000 else if ms > 3_600_000 then w == 3_600_000 else w == ms
  }

  /** How long a 429 asks to wait: its Retry-After in seconds or as a date, or five minutes. */
  predicate IsWaitOf(header: RetryAfter, at: int, w: int) {
    match header
    case Seconds(n) => IsKeptBetween(w, 1_000 * n)
    case Date(ms) => IsKeptBetween(w, ms - at)
    case _ => w == 300_000
  }

  /** How long a policy without budget asks to wait: until its reset, in whole milliseconds, or five minutes. */
  ghost predicate IsResetOf(policy: Policy, w: int) {
    if policy.resetSeconds.None? then w == 300_000
    else
      var ms := policy.resetSeconds.value * 1000.0;
      exists whole :: IsRoundedUp(whole, ms) && IsKeptBetween(w, whole)
  }

  predicate IsRoundedUp(whole: int, ms: real) {
    whole as real >= ms && (whole - 1) as real < ms
  }

  /** Some policy is down to the reserve and resets after `u`. */
  ghost predicate ExhaustedUntil(policies: seq<Policy>, reserve: real, at: int, u: int) {
    exists i, w :: 0 <= i < |policies| && policies[i].remaining.Some? && policies[i].remaining.value <= reserve
                   && IsResetOf(policies[i], w) && u < at + w
  }

  lemma ResetIs(policy: Policy, w: int)
    ensures IsResetOf(policy, w) <==> w == ResetMs(policy)
  {
    if policy.resetSeconds.Some? {
      var ms := policy.resetSeconds.value * 1000.0;
      assert IsRoundedUp(Ceil(ms), ms);
      if whole :| IsRoundedUp(whole, ms) && IsKeptBetween(w, whole) {
        OneRoundedUp(whole, Ceil(ms), ms);
      }
    }
  }

  lemma OneRoundedUp(a: int, b: int, ms: real)
    requires IsRoundedUp(a, ms) && IsRoundedUp(b, ms)
    ensures a == b
  {
  }

  ghost predicate SomeLater(times: seq<int>, u: int) {
    exists j :: 0 <= j < |times| && u < times[j]
  }

  lemma {:induction false} BlocksAre(policies: seq<Policy>, reserve: real, at: int, u: int)
    ensures SomeLater(Blocks(policies, reserve, at), u) <==> ExhaustedUntil(policies, reserve, at, u)
  {
    hide ResetMs, IsResetOf;
    if policies != [] {
      var n := |policies| - 1;
      BlocksAre(policies[..n], reserve, at, u);
      var front, last := policies[..n], policies[n];
      var before, all := Blocks(front, reserve, at), Blocks(policies, reserve, at);
      assert forall j :: 0 <= j < |before| ==> all[j] == before[j];
      if j :| 0 <= j < |all| && u < all[j] {
        if j < |before| {
          assert u < before[j];
          assert ExhaustedUntil(front, reserve, at, u);
          var i, w :| 0 <= i < n && front[i].remaining.Some? && front[i].remaining.value <= reserve
                      && IsResetOf(front[i], w) && u < at + w;
          assert policies[i] == front[i];
        } else {
          ResetIs(last, ResetMs(last));
        }
      }
      if i, w :| 0 <= i < |policies| && policies[i].remaining.Some? && policies[i].remaining.value <= reserve
                 && IsResetOf(policies[i], w) && u < at + w {
        if i < n {
          assert front[i] == policies[i];
        } else {
          ResetIs(last, w);
          assert all[|before|] == at + w;
        }
      }
    }
  }

  lemma ObservedUntil(c: Circuit, policies: seq<Policy>, at: int, u: int)
    ensures IsOpen(ObserveHeaders(c, policies, at), u) <==> IsOpen(c, u) || ExhaustedUntil(policies, c.reserveRequests, at, u)
  {
    hide Observe, Blocks, Lowest, ExhaustedUntil;
    ObserveOpens(c, policies, at);
    BlocksAre(policies, c.reserveRequests, at, u);
    var after, times := Observe(c, policies, at), Blocks(policies, c.reserveRequests, at);
    if IsOpen(after, u) && !IsOpen(c, u) {
      var j :| 0 <= j < |times| && times[j] == after.openUntil;
    }
  }

  lemma WaitIs(header: RetryAfter, at: int)
    ensures forall w :: IsWaitOf(header, at, w) <==> w == RetryMs(header, at)
  {
  }

  /**
   * An answer keeps the circuit open, beyond what it was, for as long as a 429 asks and as the policies without
   * budget ask; a lost answer leaves it alone.
   */
  lemma AnswerBlocks(s: State, c: nat, at: int, reply: Reply, u: int)
    requires c < |s.calls|
    ensures IsOpen(Answered(s, c, at, reply).circuit, u) <==>
            || IsOpen(s.circuit, u)
            || (reply.Http? && ExhaustedUntil(reply.policies, s.circuit.reserveRequests, at, u))
            || (reply.Http? && AsksToWait(reply) && exists w :: IsWaitOf(reply.retryAfter, at, w) && u < at + w)
  {
    hide Answered, ObserveHeaders, ExhaustedUntil, IsWaitOf;
    CircuitAfter(s, c, at, reply);
    if reply.Http? {
      ObservedUntil(s.circuit, reply.policies, at, u);
      WaitIs(reply.retryAfter, at);
      assert IsWaitOf(reply.retryAfter, at, RetryMs(reply.retryAfter, at));
    }
  }

  lemma CircuitAfter(s: State, c: nat, at: int, reply: Reply)
    requires c < |s.calls|
    ensures Answered(s, c, at, reply).circuit ==
            if reply.Lost? then s.circuit
            else
              var seen := ObserveHeaders(s.circuit, reply.policies, at);
              if AsksToWait(reply) then Open(seen, RetryMs(reply.retryAfter, at), Http429, at) else seen
  {
    hide ObserveHeaders, CountRemaining, Blockings;
  }

  lemma {:induction false} ObserveReason(c: Circuit, policies: seq<Policy>, now: int)
    ensures var after := Observe(c, policies, now);
            if after.openUntil == c.openUntil then after.reason == c.reason
            else after.openUntil > c.openUntil && after.reason == Some(Exhausted)
  {
    if policies != [] {
      ObserveReason(c, policies[..|policies| - 1], now);
    }
  }

  /** The reason is that of what last extended the circuit: a 429 when it asks for longer than everything else. */
  lemma AnswerGivesReason(s: State, c: nat, at: int, reply: Reply)
    requires c < |s.calls|
    ensures var after := Answered(s, c, at, reply).circuit;
            var seen := if reply.Http? then Observe(s.circuit, reply.policies, at) else s.circuit;
            if after.openUntil == s.circuit.openUntil then after.reason == s.circuit.reason
            else after.reason == Some(if after.openUntil > seen.openUntil then Http429 else Exhausted)
    ensures var after := Answered(s, c, at, reply).circuit;
            after.openedCount == s.circuit.openedCount + if IsOpen(after, at) && !IsOpen(s.circuit, at) then 1 else 0
  {
    hide Answered, Observe;
    CircuitAfter(s, c, at, reply);
    if reply.Http? {
      ObserveReason(s.circuit, reply.policies, at);
      ObserveOpens(s.circuit, reply.policies, at);
    }
  }

  /* ----- What becomes of a call ----- */

  /** A caller can leave the queue exactly while its token is queued, and go on exactly once it was handed out. */
  lemma WaitersExactly(s: State, c: nat, at: int, aborted: bool)
    requires c < |s.calls| && s.calls[c].phase.Waiting? && s.now <= at
    ensures Enabled(s, LeaveQueue(c, at)) <==> exists w :: w in s.lane.queue && w.id == s.calls[c].phase.token
    ensures Enabled(s, Resume(c, at, aborted)) <==> exists g :: g in s.lane.log && g.id == s.calls[c].phase.token
  {
    var token := s.calls[c].phase.token;
    if w :| w in s.lane.queue && w.id == token {
      var i :| 0 <= i < |s.lane.queue| && s.lane.queue[i] == w;
    }
    if g :| g in s.lane.log && g.id == token {
      var i :| 0 <= i < |s.lane.log| && s.lane.log[i] == g;
    }
  }

  /** The call may start and the caller has not given up: then the lane decides, by what it holds. */
  lemma LaneDecides(s: State, c: nat, at: int, ms: int)
    requires Sound(s) && s.now <= at && c < |s.calls| && !IsOpen(s.circuit, at)
    requires var count := |s.lane.queue| + 1;
             if s.calls[c].priority.Unauthenticated? && s.lane.sub.Some?
             then RateAdmission.IsWaitForBoth(s.lane.bucket, s.lane.sub.value, at, count, ms)
             else RateAdmission.IsWait(s.lane.bucket, at, 0, count, ms)
    ensures var t := Begun(s, c, at, false);
            var shared := s.calls[c].priority.Unauthenticated? && s.lane.sub.Some?;
            var atOnce := s.lane.queue == [] && RateAdmission.TokensAt(s.lane.bucket, at) >= 1.0
                          && (shared ==> RateAdmission.TokensAt(s.lane.sub.value, at) >= 1.0);
            && |t.calls| == |s.calls|
            && t.calls[c].phase ==
               if atOnce then Waiting(s.lane.arrivals, at, false)
               else if shared then Ended(ShedOutcome)
               else if ms > s.lane.maxWaitMs then Ended(QueueTimeoutOutcome)
               else Waiting(s.lane.arrivals, at, true)
  {
    hide Rate.AcquireQueued, Rate.AcquireShared, RateAdmission.TokensAt, RateAdmission.IsWait, RateAdmission.IsWaitForBoth,
         RateAdmission.AdmittedAtOnce, RateAdmission.AdmittedLast, RateAdmission.Spent, RateQueue.NoLostWakeUp;
    if s.calls[c].priority.Unauthenticated? && s.lane.sub.Some? {
      RateAdmission.SharedAdmission(s.lane, at, ms);
    } else {
      RateAdmission.WaitingAdmission(s.lane, at, s.calls[c].priority, ms);
    }
  }

  /** A call that starts ends with the circuit exactly when an earlier answer blocks, and aborted when its caller has given up. */
  lemma BeginEnds(p: Process, front: seq<Label>, c: nat, at: int, aborted: bool)
    requires p.Ok() && p.Runs(front + [Begin(c, at, aborted)])
    ensures p.Runs(front) && c < |p.Last(front + [Begin(c, at, aborted)]).calls|
    ensures var blocked, phase := IsBlocked(p.Last(front), at), p.Last(front + [Begin(c, at, aborted)]).calls[c].phase;
            && (phase == Ended(CircuitOpen) <==> blocked)
            && (phase == Ended(AbortedOutcome) <==> !blocked && aborted)
  {
    hide CanRun, RunAll, IsBlocked, Rate.Happen, Rate.AcquireQueued, Rate.AcquireShared;
    RunSnoc(p.First(), front, Begin(c, at, aborted), p.tables);
    CircuitIsReasoned(p, front, at);
    NeverAborted(p.Last(front).lane, at, p.Last(front).calls[c].priority);
  }

  lemma NeverAborted(l: Rate.Lane, at: int, priority: Rate.Priority)
    requires l.BucketsOk()
    ensures Rate.Acquire(l, at, priority, false).1 != Rate.Aborted
  {
  }

  /** A call with its token sends its request unless an answer blocks or its caller has given up. */
  lemma ResumeSends(p: Process, front: seq<Label>, c: nat, at: int, aborted: bool)
    requires p.Ok() && p.Runs(front + [Resume(c, at, aborted)])
    ensures p.Runs(front) && c < |p.Last(front).calls| && p.Last(front).calls[c].phase.Waiting?
    ensures c < |p.Last(front + [Resume(c, at, aborted)]).calls|
    ensures var s, t := p.Last(front), p.Last(front + [Resume(c, at, aborted)]);
            && t.calls[c].phase == (if IsBlocked(s, at) then Ended(CircuitOpen) else if aborted then Ended(AbortedOutcome) else Sending)
            && t.history == if IsBlocked(s, at) || aborted then s.history
                            else s.history + [Request(c, s.calls[c].phase.token, at)]
  {
    hide CanRun, RunAll, IsBlocked;
    RunSnoc(p.First(), front, Resume(c, at, aborted), p.tables);
    CircuitIsReasoned(p, front, at);
  }

  /** After its backoff a call starts its next attempt, unless its caller has given up; so ends one that leaves the queue it is in. */
  lemma AttemptsGoOn(p: Process, front: seq<Label>, l: Label)
    requires p.Ok() && p.Runs(front + [l]) && (l.Slept? || l.LeaveQueue?)
    ensures p.Runs(front) && l.call < |p.Last(front).calls| && l.call < |p.Last(front + [l]).calls|
    ensures l.LeaveQueue? ==>
              var s := p.Last(front);
              s.calls[l.call].phase.Waiting? && exists i :: 0 <= i < |s.lane.queue| && s.lane.queue[i].id == s.calls[l.call].phase.token
    ensures var before, after := p.Last(front).calls[l.call], p.Last(front + [l]).calls[l.call];
            if l.LeaveQueue? || l.aborted then after.phase == Ended(AbortedOutcome)
            else after == before.(phase := Starting, attempt := before.attempt + 1)
  {
    hide CanRun, RunAll, Rate.Happen;
    RunSnoc(p.First(), front, l, p.tables);
  }
}
