/** packages/db/src/d1-rest-client.ts: every request spends a token of the lane, and is counted. */
module D1Tokens {
  import opened D1Circuit
  import opened D1Counters
  import opened D1Client
  import Rate = RateLimit

  /* ----- What the lane keeps ----- */

  /** A token handed out no later than `time`. */
  ghost predicate HandedOut(lane: Rate.Lane, token: nat, time: int) {
    exists i :: 0 <= i < |lane.log| && lane.log[i].id == token && lane.log[i].time <= time
  }

  ghost predicate Dated(lane: Rate.Lane, from: int) {
    forall i :: 0 <= i < |lane.log| ==> from <= lane.log[i].time <= lane.now
  }

  /** The log only grows. */
  ghost predicate Extends(m: Rate.Lane, l: Rate.Lane) {
    l.log <= m.log && l.arrivals <= m.arrivals
  }

  lemma ServeExtends(l: Rate.Lane, from: int)
    requires l.queue != [] && Dated(l, from) && from <= l.now
    ensures Extends(Rate.Serve(l), l) && Dated(Rate.Serve(l), from)
  {
  }

  lemma {:induction false} PumpExtends(l: Rate.Lane, from: int)
    requires l.bucket.ratePerSecond > 0.0 && Dated(l, from) && from <= l.now
    ensures Extends(Rate.Pump(l), l) && Dated(Rate.Pump(l), from) && Rate.Pump(l).now == l.now
    ensures Rate.Pump(l).arrivals == l.arrivals
    decreases |l.queue|
  {
    if l.queue != [] && l.bucket.tokens >= 1.0 {
      ServeExtends(l, from);
      PumpExtends(Rate.Serve(l), from);
    }
  }

  lemma LaneExtends(l: Rate.Lane, e: Rate.Event, from: int)
    requires l.BucketsOk() && Rate.Possible(l, e) && Dated(l, from) && from <= l.now
    ensures var m := Rate.Happen(l, e);
            && Extends(m, l) && Dated(m, from) && m.now == e.now
            && m.arrivals == if e.Call? then l.arrivals + 1 else l.arrivals
  {
    hide Rate.Refill, Rate.MsUntil, Rate.Pump, Rate.Without;
    Rate.StepKeepsBuckets(l, e);
    if !e.Leave? && !(e.Call? && e.aborted) {
      RefillKeepsRate(l.bucket, e.now);
      var filled := Rate.AtTime(l, e.now);
      assert Dated(filled, from);
      if e.Wake? {
        PumpExtends(filled, from);
      } else if !(e.priority.Unauthenticated? && l.sub.Some?) {
        var joined := Rate.Join(filled, Rate.MsUntil(filled.bucket, |l.queue| + 1));
        assert Dated(joined, from);
        PumpExtends(joined, from);
      }
    }
  }

  lemma RefillKeepsRate(b: Rate.Bucket, now: int)
    ensures Rate.Refill(b, now).ratePerSecond == b.ratePerSecond
  {
  }

  lemma StillHandedOut(l: Rate.Lane, m: Rate.Lane, token: nat, time: int)
    requires Extends(m, l) && HandedOut(l, token, time)
    ensures HandedOut(m, token, time)
  {
    var i :| 0 <= i < |l.log| && l.log[i].id == token && l.log[i].time <= time;
    assert m.log[i] == l.log[i];
  }

  /* ----- Tokens and requests ----- */

  ghost predicate RequestsOk(history: seq<Event>, lane: Rate.Lane, now: int) {
    && (forall i :: 0 <= i < |history| && history[i].Request? ==>
                      && history[i].token < lane.arrivals && history[i].time <= now
                      && HandedOut(lane, history[i].token, history[i].time))
    && (forall i, j :: 0 <= i < j < |history| && history[i].Request? && history[j].Request? ==>
                         history[i].token != history[j].token)
  }

  /** The token a call waits for is not used by another request or another call. */
  ghost predicate WaitersOk(s: State) {
    && (forall c, i :: 0 <= c < |s.calls| && s.calls[c].phase.Waiting? && 0 <= i < |s.history| && s.history[i].Request? ==>
                         s.history[i].token != s.calls[c].phase.token)
    && (forall c, d :: 0 <= c < d < |s.calls| && s.calls[c].phase.Waiting? && s.calls[d].phase.Waiting? ==>
                         s.calls[c].phase.token != s.calls[d].phase.token)
    && (forall c :: 0 <= c < |s.calls| && s.calls[c].phase.Waiting? ==> s.calls[c].phase.token < s.lane.arrivals)
  }

  ghost predicate TokensOk(s: State, from: int) {
    && s.lane.BucketsOk() && from <= s.lane.now <= s.now && Dated(s.lane, from)
    && RequestsOk(s.history, s.lane, s.now)
    && WaitersOk(s)
  }

  lemma LaneKeepsRequests(history: seq<Event>, l: Rate.Lane, m: Rate.Lane, now: int, later: int)
    requires RequestsOk(history, l, now) && Extends(m, l) && now <= later
    ensures RequestsOk(history, m, later)
  {
    hide HandedOut, Extends;
    forall i | 0 <= i < |history| && history[i].Request?
      ensures history[i].token < m.arrivals && history[i].time <= later && HandedOut(m, history[i].token, history[i].time)
    {
      StillHandedOut(l, m, history[i].token, history[i].time);
      ExtendsArrivals(m, l);
    }
  }

  lemma ExtendsArrivals(m: Rate.Lane, l: Rate.Lane)
    requires Extends(m, l)
    ensures l.arrivals <= m.arrivals
  {
  }

  lemma AddRequest(history: seq<Event>, lane: Rate.Lane, now: int, c: nat, token: nat, at: int)
    requires RequestsOk(history, lane, now) && now <= at && token < lane.arrivals && HandedOut(lane, token, at)
    requires forall i :: 0 <= i < |history| && history[i].Request? ==> history[i].token != token
    ensures RequestsOk(history + [Request(c, token, at)], lane, at)
  {
    hide HandedOut;
  }

  lemma AddBlocks(history: seq<Event>, times: seq<int>, lane: Rate.Lane, now: int)
    requires RequestsOk(history, lane, now)
    ensures RequestsOk(history + Blockings(times), lane, now)
  {
    hide HandedOut;
    var all := history + Blockings(times);
    assert forall i :: 0 <= i < |all| && all[i].Request? ==> i < |history| && all[i] == history[i];
  }

  /** Calls that stop waiting, and history without new requests, are no trouble. */
  lemma FewerWaiters(s: State, t: State)
    requires WaitersOk(s) && |t.calls| >= |s.calls| && t.lane.arrivals >= s.lane.arrivals
    requires forall c :: 0 <= c < |t.calls| && t.calls[c].phase.Waiting? ==> c < |s.calls| && t.calls[c].phase == s.calls[c].phase
    requires forall i :: 0 <= i < |t.history| && t.history[i].Request? ==> i < |s.history| && t.history[i] == s.history[i]
    ensures WaitersOk(t)
  {
  }

  lemma WakeKeepsTokens(s: State, e: Rate.Event, from: int)
    requires TokensOk(s, from) && Rate.Possible(s.lane, e) && s.now <= e.now && !e.Call?
    ensures TokensOk(s.(lane := Rate.Happen(s.lane, e), now := e.now), from)
  {
    hide RequestsOk, Dated, Extends, Rate.Happen;
    LaneExtends(s.lane, e, from);
    Rate.StepKeepsBuckets(s.lane, e);
    LaneKeepsRequests(s.history, s.lane, Rate.Happen(s.lane, e), s.now, e.now);
    FewerWaiters(s, s.(lane := Rate.Happen(s.lane, e), now := e.now));
  }

  lemma AskKeepsTokens(s: State, e: Rate.Event, c: nat, from: int)
    requires TokensOk(s, from) && s.now <= e.now && e.Call? && c < |s.calls|
    ensures var t := s.(lane := Rate.Happen(s.lane, e), now := e.now);
            && TokensOk(t, from)
            && TokensOk(MoveTo(t, c, Waiting(s.lane.arrivals, e.now, true)), from)
            && TokensOk(MoveTo(t, c, Waiting(s.lane.arrivals, e.now, false)), from)
  {
    hide RequestsOk, Dated, Extends, Rate.Happen;
    LaneExtends(s.lane, e, from);
    Rate.StepKeepsBuckets(s.lane, e);
    LaneKeepsRequests(s.history, s.lane, Rate.Happen(s.lane, e), s.now, e.now);
    var t := s.(lane := Rate.Happen(s.lane, e), now := e.now);
    FewerWaiters(s, t);
    NewWaiter(s, t, c, Waiting(s.lane.arrivals, e.now, true));
    NewWaiter(s, t, c, Waiting(s.lane.arrivals, e.now, false));
  }

  lemma NewWaiter(s: State, t: State, c: nat, phase: Phase)
    requires WaitersOk(s) && RequestsOk(s.history, s.lane, s.now) && c < |s.calls|
    requires t.calls == s.calls && t.history == s.history && t.lane.arrivals == s.lane.arrivals + 1
    requires phase.Waiting? && phase.token == s.lane.arrivals
    ensures WaitersOk(MoveTo(t, c, phase))
  {
    hide HandedOut;
  }

  lemma SpendKeepsTokens(s: State, c: nat, at: int, t: State, from: int)
    requires TokensOk(s, from) && s.now <= at && c < |s.calls| && s.calls[c].phase.Waiting?
    requires IsGranted(s.lane, s.calls[c].phase.token)
    requires t.lane == s.lane && t.now == at && t.history == s.history + [Request(c, s.calls[c].phase.token, at)]
    requires |t.calls| == |s.calls| && !t.calls[c].phase.Waiting?
    requires forall d :: 0 <= d < |s.calls| && d != c ==> t.calls[d] == s.calls[d]
    ensures TokensOk(t, from)
  {
    hide Rate.Happen;
    var token := s.calls[c].phase.token;
    var k :| 0 <= k < |s.lane.log| && s.lane.log[k].id == token;
    assert HandedOut(s.lane, token, at);
    AddRequest(s.history, s.lane, s.now, c, token, at);
    SpentWaiter(s, t, c, Request(c, token, at));
  }

  lemma SpentWaiter(s: State, t: State, c: nat, sent: Event)
    requires WaitersOk(s) && c < |s.calls| && s.calls[c].phase.Waiting? && sent.Request? && sent.token == s.calls[c].phase.token
    requires t.lane == s.lane && t.history == s.history + [sent] && |t.calls| == |s.calls| && !t.calls[c].phase.Waiting?
    requires forall d :: 0 <= d < |s.calls| && d != c ==> t.calls[d] == s.calls[d]
    ensures WaitersOk(t)
  {
  }

  /** A step that leaves the lane alone and sends nothing. */
  lemma QuietKeepsTokens(s: State, t: State, from: int)
    requires TokensOk(s, from) && t.lane == s.lane && t.now >= s.now && |t.calls| >= |s.calls|
    requires forall c :: 0 <= c < |t.calls| && t.calls[c].phase.Waiting? ==> c < |s.calls| && t.calls[c].phase == s.calls[c].phase
    requires exists times :: t.history == s.history + Blockings(times)
    ensures TokensOk(t, from)
  {
    hide RequestsOk, Dated, Extends, Rate.Happen, WaitersOk;
    var times :| t.history == s.history + Blockings(times);
    AddBlocks(s.history, times, s.lane, s.now);
    SameLaneRequests(t.history, s.lane, s.now, t.now);
    FewerWaiters(s, t);
  }

  lemma SameLaneRequests(history: seq<Event>, lane: Rate.Lane, now: int, later: int)
    requires RequestsOk(history, lane, now) && now <= later
    ensures RequestsOk(history, lane, later)
  {
    hide HandedOut;
  }

  lemma NoBlockings(history: seq<Event>)
    ensures history == history + Blockings([])
  {
  }

  lemma OneMoreBlocking(history: seq<Event>, times: seq<int>, last: int)
    ensures history + Blockings(times) + [Blocked(last)] == history + Blockings(times + [last])
  {
  }

  lemma AnswerKeepsTokens(s: State, c: nat, at: int, reply: Reply, from: int)
    requires TokensOk(s, from) && Enabled(s, Answer(c, at, reply))
    ensures TokensOk(Answered(s, c, at, reply).(now := at), from)
  {
    hide TokensOk, Observe, Lowest, CountRemaining, Blocks, Blockings;
    var t := Answered(s, c, at, reply).(now := at);
    NoBlockings(s.history);
    if reply.Http? {
      var times := Blocks(reply.policies, s.circuit.reserveRequests, at);
      OneMoreBlocking(s.history, times, at + RetryMs(reply.retryAfter, at));
      if reply.status == 429 {
        assert t.history == s.history + Blockings(times + [at + RetryMs(reply.retryAfter, at)]);
      } else {
        assert t.history == s.history + Blockings(times);
      }
    } else {
      assert t.history == s.history + Blockings([]);
    }
    QuietKeepsTokens(s, t, from);
  }

  lemma BeginKeepsTokens(s: State, c: nat, at: int, aborted: bool, from: int)
    requires TokensOk(s, from) && Enabled(s, Begin(c, at, aborted))
    ensures TokensOk(Begun(s, c, at, aborted).(now := at), from)
  {
    hide RequestsOk, Dated, WaitersOk, Rate.Happen, Rate.Acquire, Blockings;
    var t := Begun(s, c, at, aborted).(now := at);
    NoBlockings(s.history);
    if IsOpen(s.circuit, at) {
      QuietKeepsTokens(s, t, from);
    } else {
      var e := Rate.Call(at, s.calls[c].priority, aborted);
      AskKeepsTokens(s, e, c, from);
      var asked := s.(lane := Rate.Happen(s.lane, e), now := at);
      if t.calls[c].phase.Waiting? {
        assert t == MoveTo(asked, c, t.calls[c].phase);
      } else {
        QuietKeepsTokens(asked, t, from);
      }
    }
  }

  lemma StepKeepsTokens(s: State, l: Label, tables: seq<string>, from: int)
    requires TokensOk(s, from) && Enabled(s, l)
    ensures TokensOk(Next(s, l, tables), from)
  {
    hide RequestsOk, Dated, WaitersOk, Rate.Happen, Rate.Acquire, Accepts, ReadOnlyWork, Waited, Answered, Begun, Blockings;
    var t := Next(s, l, tables);
    NoBlockings(s.history);
    match l {
      case Begin(c, at, aborted) => BeginKeepsTokens(s, c, at, aborted, from);
      case LaneWakes(at) => WakeKeepsTokens(s, Rate.Wake(at), from);
      case LeaveQueue(c, at) =>
        WakeKeepsTokens(s, Rate.Leave(at, s.calls[c].phase.token), from);
        QuietKeepsTokens(s.(lane := t.lane, now := at), t, from);
      case Resume(c, at, aborted) =>
        if IsOpen(s.circuit, at) || aborted {
          QuietKeepsTokens(s, t, from);
        } else {
          SpendKeepsTokens(s, c, at, t, from);
        }
      case Answer(c, at, reply) => AnswerKeepsTokens(s, c, at, reply, from);
      case _ => QuietKeepsTokens(s, t, from);
    }
  }
}
