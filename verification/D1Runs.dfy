/** packages/db/src/d1-rest-client.ts: the main results over every run of a process's D1 clients. */
module D1Runs {
  import opened Wrappers
  import opened Numbers
  import opened D1Circuit
  import opened D1Counters
  import opened D1Client
  import opened D1Safety
  import opened D1Tokens
  import SqlLimits
  import Rate = RateLimit
  import RateWindows

  /* ----- Counting ----- */

  function Requests(history: seq<Event>): nat {
    if history == [] then 0
    else Requests(history[..|history| - 1]) + if history[|history| - 1].Request? then 1 else 0
  }

  function RequestsOf(history: seq<Event>, c: nat): nat {
    if history == [] then 0
    else
      var last := history[|history| - 1];
      RequestsOf(history[..|history| - 1], c) + if last.Request? && last.call == c then 1 else 0
  }

  function RecordedOf(calls: seq<Call>): multiset<Outcome> {
    if calls == [] then multiset{} else RecordedOf(calls[..|calls| - 1]) + multiset(calls[|calls| - 1].recorded)
  }

  lemma RequestsPush(history: seq<Event>, e: Event)
    ensures Requests(history + [e]) == Requests(history) + if e.Request? then 1 else 0
    ensures forall c :: RequestsOf(history + [e], c) == RequestsOf(history, c) + if e.Request? && e.call == c then 1 else 0
  {
    assert (history + [e])[..|history|] == history;
  }

  lemma {:induction false} RequestsBlockings(history: seq<Event>, times: seq<int>)
    ensures Requests(history + Blockings(times)) == Requests(history)
    ensures forall c :: RequestsOf(history + Blockings(times), c) == RequestsOf(history, c)
  {
    if times == [] {
      assert history + Blockings([]) == history;
    } else {
      var front, last := times[..|times| - 1], times[|times| - 1];
      RequestsBlockings(history, front);
      RequestsPush(history + Blockings(front), Blocked(last));
      assert times == front + [last];
      OneMoreBlocking(history, front, last);
    }
  }

  lemma {:induction false} NoRequestsOf(history: seq<Event>, c: nat)
    requires forall i :: 0 <= i < |history| && history[i].Request? ==> history[i].call != c
    ensures RequestsOf(history, c) == 0
  {
    if history != [] {
      NoRequestsOf(history[..|history| - 1], c);
    }
  }

  lemma {:induction false} RecordedUpdate(calls: seq<Call>, c: nat, call: Call, more: seq<Outcome>)
    requires c < |calls| && call.recorded == calls[c].recorded + more
    ensures RecordedOf(calls[c := call]) == RecordedOf(calls) + multiset(more)
  {
    var updated := calls[c := call];
    var n := |calls| - 1;
    if c == n {
      assert updated[..n] == calls[..n];
      assert multiset(calls[c].recorded + more) == multiset(calls[c].recorded) + multiset(more);
    } else {
      assert updated[..n] == calls[..n][c := call];
      RecordedUpdate(calls[..n], c, call, more);
    }
  }

  lemma RecordedPush(calls: seq<Call>, call: Call)
    requires call.recorded == []
    ensures RecordedOf(calls + [call]) == RecordedOf(calls)
  {
    assert (calls + [call])[..|calls|] == calls;
  }

  /** The counters and the snapshots taken add up to what happened. */
  ghost predicate CountsOk(s: State) {
    && s.published.outcomes + s.counters.outcomes == RecordedOf(s.calls)
    && s.published.sent + s.counters.requestsSent == Requests(s.history)
    && (forall c :: 0 <= c < |s.calls| ==> RequestsOf(s.history, c) == s.calls[c].sends)
    && (forall i :: 0 <= i < |s.history| && s.history[i].Request? ==> s.history[i].call < |s.calls|)
  }

  lemma {:induction false} RemainingCountsNothing(w: Window, policies: seq<Policy>)
    ensures CountRemaining(w, policies).outcomes == w.outcomes && CountRemaining(w, policies).requestsSent == w.requestsSent
  {
    if policies != [] {
      RemainingCountsNothing(w, policies[..|policies| - 1]);
    }
  }

  /** Two states that agree on what is counted. */
  lemma SameCounts(s: State, t: State)
    requires CountsOk(s) && t.published == s.published
    requires t.counters.outcomes == s.counters.outcomes && t.counters.requestsSent == s.counters.requestsSent
    requires t.calls == s.calls && t.history == s.history
    ensures CountsOk(t)
  {
  }

  lemma MoveKeepsCounts(s: State, c: nat, call: Call)
    requires CountsOk(s) && c < |s.calls| && call.recorded == s.calls[c].recorded && call.sends == s.calls[c].sends
    ensures CountsOk(s.(calls := s.calls[c := call]))
  {
    hide RequestsOf, Requests;
    assert call.recorded == s.calls[c].recorded + [];
    RecordedUpdate(s.calls, c, call, []);
  }

  lemma FinishKeepsCounts(s: State, c: nat, outcome: Outcome)
    requires CountsOk(s) && c < |s.calls|
    ensures CountsOk(Finish(s, c, outcome))
  {
    hide RequestsOf, Requests;
    var call := s.calls[c];
    RecordedUpdate(s.calls, c, call.(phase := Ended(outcome), recorded := call.recorded + [outcome]), [outcome]);
    assert multiset([outcome]) == multiset{outcome};
  }

  lemma RetryKeepsCounts(s: State, c: nat, otherwise: Outcome)
    requires CountsOk(s) && c < |s.calls|
    ensures CountsOk(RetryOr(s, c, otherwise))
  {
    hide CountsOk, CanRetry;
    FinishKeepsCounts(s, c, otherwise);
    var retried := s.(counters := Retried(s.counters));
    SameCounts(s, retried);
    MoveKeepsCounts(retried, c, s.calls[c].(phase := BackingOff));
  }

  lemma SendKeepsCounts(s: State, t: State, c: nat, token: nat, at: int)
    requires CountsOk(s) && c < |s.calls| && t.history == s.history + [Request(c, token, at)] && t.published == s.published
    requires t.counters.outcomes == s.counters.outcomes && t.counters.requestsSent == s.counters.requestsSent + 1
    requires t.calls == s.calls[c := s.calls[c].(phase := Sending, sends := s.calls[c].sends + 1)]
    ensures CountsOk(t)
  {
    RequestsPush(s.history, Request(c, token, at));
    var call := t.calls[c];
    assert call.recorded == s.calls[c].recorded + [];
    RecordedUpdate(s.calls, c, call, []);
  }

  lemma BlocksKeepCounts(s: State, times: seq<int>)
    requires CountsOk(s)
    ensures CountsOk(s.(history := s.history + Blockings(times)))
  {
    RequestsBlockings(s.history, times);
    var all := s.history + Blockings(times);
    assert forall i :: 0 <= i < |all| && all[i].Request? ==> i < |s.history| && all[i] == s.history[i];
  }

  lemma SubmitKeepsCounts(s: State, work: Work, attempts: int, priority: Rate.Priority, tables: seq<string>)
    requires CountsOk(s)
    ensures CountsOk(Submitted(s, work, attempts, priority, tables))
  {
    hide CountsOk, ReadOnlyWork, Accepts;
    var readOnly := ReadOnlyWork(work, tables);
    var max: nat := if readOnly then Max(1, attempts) else 1;
    var call := Call(work, readOnly, max, priority, 1, Starting, 0, []);
    AddKeepsCounts(s, call);
    FinishKeepsCounts(s.(calls := s.calls + [call]), |s.calls|, Invalid);
  }

  lemma AddKeepsCounts(s: State, call: Call)
    requires CountsOk(s) && call.sends == 0 && call.recorded == []
    ensures CountsOk(s.(calls := s.calls + [call]))
  {
    hide RequestsOf, Requests;
    RecordedPush(s.calls, call);
    NoRequestsOf(s.history, |s.calls|);
  }

  lemma BeginKeepsCounts(s: State, c: nat, at: int, aborted: bool)
    requires CountsOk(s) && s.lane.BucketsOk() && Enabled(s, Begin(c, at, aborted))
    ensures CountsOk(Begun(s, c, at, aborted))
  {
    hide CountsOk, Rate.Acquire, Rate.Happen, Finish;
    if IsOpen(s.circuit, at) {
      FinishKeepsCounts(s, c, CircuitOpen);
    } else {
      var asked := s.(lane := Rate.Happen(s.lane, Rate.Call(at, s.calls[c].priority, aborted)));
      SameCounts(s, asked);
      match Rate.Acquire(s.lane, at, s.calls[c].priority, aborted).1 {
        case Granted => MoveKeepsCounts(asked, c, s.calls[c].(phase := Waiting(s.lane.arrivals, at, false)));
        case Queued => MoveKeepsCounts(asked, c, s.calls[c].(phase := Waiting(s.lane.arrivals, at, true)));
        case Shed(_) => FinishKeepsCounts(asked, c, ShedOutcome);
        case QueueTimeout(_) => FinishKeepsCounts(asked, c, QueueTimeoutOutcome);
        case Aborted => FinishKeepsCounts(asked, c, AbortedOutcome);
      }
    }
  }

  lemma ResumeKeepsCounts(s: State, c: nat, at: int, aborted: bool)
    requires CountsOk(s) && Enabled(s, Resume(c, at, aborted))
    ensures CountsOk(Resumed(s, c, at, aborted))
  {
    hide CountsOk, Finish;
    var phase := s.calls[c].phase;
    var counted := s.(counters := Waited(s.counters, if phase.queued then at - phase.since else 0));
    SameCounts(s, counted);
    if IsOpen(s.circuit, at) {
      FinishKeepsCounts(counted, c, CircuitOpen);
    } else if aborted {
      FinishKeepsCounts(counted, c, AbortedOutcome);
    } else {
      SendKeepsCounts(counted, Resumed(s, c, at, aborted), c, phase.token, at);
    }
  }

  lemma ObserveKeepsCounts(s: State, policies: seq<Policy>, retryMs: int, at: int)
    requires CountsOk(s)
    ensures CountsOk(Observed(s, policies, at)) && CountsOk(BlockedFor(Observed(s, policies, at), retryMs, at))
  {
    hide CountsOk, Observe, Blocks, Lowest, CountRemaining;
    var times := Blocks(policies, s.circuit.reserveRequests, at);
    RemainingCountsNothing(s.counters, policies);
    BlocksKeepCounts(s, times);
    BlocksKeepCounts(s, times + [at + retryMs]);
    OneMoreBlocking(s.history, times, at + retryMs);
    SameCounts(s.(history := s.history + Blockings(times)), Observed(s, policies, at));
    SameCounts(s.(history := s.history + Blockings(times + [at + retryMs])),
               BlockedFor(Observed(s, policies, at), retryMs, at));
  }

  lemma AnswerKeepsCounts(s: State, c: nat, at: int, reply: Reply)
    requires CountsOk(s) && Enabled(s, Answer(c, at, reply))
    ensures CountsOk(Answered(s, c, at, reply))
  {
    hide CountsOk, Finish, RetryOr, Observed;
    var call := s.calls[c];
    if reply.Lost? {
      RetryKeepsCounts(s, c, GivenUp(call));
      FinishKeepsCounts(s, c, AbortedOutcome);
      FinishKeepsCounts(s, c, GivenUp(call));
    } else {
      var ms := RetryMs(reply.retryAfter, at);
      ObserveKeepsCounts(s, reply.policies, ms, at);
      var seen := Observed(s, reply.policies, at);
      assert seen.calls == s.calls by { SeenCalls(s, reply.policies, at); }
      FinishKeepsCounts(BlockedFor(seen, ms, at), c, Http429Outcome);
      FinishKeepsCounts(seen, c, Unauthorized);
      FinishKeepsCounts(seen, c, OkOutcome);
      FinishKeepsCounts(seen, c, StatementFailed);
      FinishKeepsCounts(seen, c, Rejected);
      RetryKeepsCounts(seen, c, GivenUp(call));
    }
  }

  lemma SeenCalls(s: State, policies: seq<Policy>, at: int)
    ensures Observed(s, policies, at).calls == s.calls
  {
  }

  lemma SnapshotKeepsCounts(s: State, at: int)
    requires CountsOk(s)
    ensures CountsOk(Snapshotted(s, at))
  {
    hide RequestsOf, Requests, RecordedOf;
  }

  lemma AwakeKeepsCounts(s: State, c: nat, aborted: bool)
    requires CountsOk(s) && c < |s.calls|
    ensures CountsOk(Awake(s, c, aborted))
  {
    hide CountsOk;
    FinishKeepsCounts(s, c, AbortedOutcome);
    MoveKeepsCounts(s, c, s.calls[c].(phase := Starting, attempt := s.calls[c].attempt + 1));
  }

  lemma StepKeepsCounts(s: State, l: Label, tables: seq<string>)
    requires CountsOk(s) && s.lane.BucketsOk() && Enabled(s, l)
    ensures CountsOk(Next(s, l, tables))
  {
    hide CountsOk, Submitted, Begun, Resumed, Answered, Awake, Snapshotted, Finish, Rate.Happen;
    var t := Next(s, l, tables);
    match l {
      case Submit(work, attempts, priority) => SubmitKeepsCounts(s, work, attempts, priority, tables);
      case Begin(c, at, aborted) =>
        BeginKeepsCounts(s, c, at, aborted);
        SameCounts(Begun(s, c, at, aborted), t);
      case LaneWakes(_) => SameCounts(s, t);
      case LeaveQueue(c, at) =>
        var left := s.(lane := Rate.Happen(s.lane, Rate.Leave(at, s.calls[c].phase.token)));
        SameCounts(s, left);
        FinishKeepsCounts(left, c, AbortedOutcome);
        SameCounts(Finish(left, c, AbortedOutcome), t);
      case Resume(c, at, aborted) =>
        ResumeKeepsCounts(s, c, at, aborted);
        SameCounts(Resumed(s, c, at, aborted), t);
      case Answer(c, at, reply) =>
        AnswerKeepsCounts(s, c, at, reply);
        SameCounts(Answered(s, c, at, reply), t);
      case Slept(c, _, aborted) =>
        AwakeKeepsCounts(s, c, aborted);
        SameCounts(Awake(s, c, aborted), t);
      case TakeSnapshot(at) =>
        SnapshotKeepsCounts(s, at);
        SameCounts(Snapshotted(s, at), t);
    }
  }

  /* ----- Runs ----- */

  ghost predicate Sound(s: State) {
    s.lane.BucketsOk() && s.lane.now <= s.now
  }

  lemma StepIsSound(s: State, l: Label, tables: seq<string>)
    requires Sound(s) && Enabled(s, l)
    ensures Sound(Next(s, l, tables)) && Next(s, l, tables).now == Time(s, l)
  {
    hide Rate.Happen, Rate.Acquire, Accepts, ReadOnlyWork, Answered, Waited;
    var c, at := if l.Begin? || l.LeaveQueue? then l.call else 0, Time(s, l);
    if l.Begin? {
      Rate.StepKeepsBuckets(s.lane, Rate.Call(at, s.calls[c].priority, l.aborted));
    } else if l.LaneWakes? {
      Rate.StepKeepsBuckets(s.lane, Rate.Wake(at));
    } else if l.LeaveQueue? {
      Rate.StepKeepsBuckets(s.lane, Rate.Leave(at, s.calls[c].phase.token));
    } else if l.Answer? {
      AnswersLeaveLane(s, l.call, at, l.reply);
    }
  }

  lemma AnswersLeaveLane(s: State, c: nat, at: int, reply: Reply)
    requires c < |s.calls|
    ensures Answered(s, c, at, reply).lane == s.lane
  {
  }

  ghost predicate CanRun(s: State, labels: seq<Label>, tables: seq<string>)
    requires Sound(s)
    decreases |labels|
  {
    labels != [] ==>
      && Enabled(s, labels[0])
      && (StepIsSound(s, labels[0], tables); CanRun(Next(s, labels[0], tables), labels[1..], tables))
  }

  ghost function RunAll(s: State, labels: seq<Label>, tables: seq<string>): State
    requires Sound(s) && CanRun(s, labels, tables)
    decreases |labels|
  {
    if labels == [] then s
    else StepIsSound(s, labels[0], tables); RunAll(Next(s, labels[0], tables), labels[1..], tables)
  }

  ghost predicate Inv(s: State, tables: seq<string>, from: int, to: int) {
    && CallsOk(s, tables) && CircuitOk(s) && TokensOk(s, from) && CountsOk(s)
    && RateWindows.WindowsOk(s.lane, from, to)
  }

  lemma StepKeepsLane(s: State, l: Label, tables: seq<string>, from: int, to: int)
    requires Sound(s) && Enabled(s, l) && from <= to && RateWindows.WindowsOk(s.lane, from, to)
    ensures RateWindows.WindowsOk(Next(s, l, tables).lane, from, to)
    ensures RateWindows.SameLimits(Next(s, l, tables).lane, s.lane)
  {
    hide Rate.Happen, Rate.Acquire, Accepts, ReadOnlyWork, Answered, Waited, RateWindows.WindowsOk;
    var c, at := if l.Begin? || l.LeaveQueue? then l.call else 0, Time(s, l);
    if l.Begin? {
      RateWindows.StepKeepsWindows(s.lane, Rate.Call(at, s.calls[c].priority, l.aborted), from, to);
    } else if l.LaneWakes? {
      RateWindows.StepKeepsWindows(s.lane, Rate.Wake(at), from, to);
    } else if l.LeaveQueue? {
      RateWindows.StepKeepsWindows(s.lane, Rate.Leave(at, s.calls[c].phase.token), from, to);
    } else if l.Answer? {
      AnswersLeaveLane(s, l.call, at, l.reply);
    }
  }

  lemma {:induction false} RunKeepsInv(s: State, labels: seq<Label>, tables: seq<string>, from: int, to: int)
    requires Sound(s) && Inv(s, tables, from, to) && from <= to && CanRun(s, labels, tables)
    ensures var t := RunAll(s, labels, tables);
            Sound(t) && Inv(t, tables, from, to) && RateWindows.SameLimits(t.lane, s.lane)
    decreases |labels|
  {
    hide Next, Enabled, CallsOk, CircuitOk, TokensOk, CountsOk, RateWindows.WindowsOk;
    if labels != [] {
      var l := labels[0];
      StepIsSound(s, l, tables);
      StepKeepsCalls(s, l, tables);
      StepKeepsCircuit(s, l, tables);
      StepKeepsTokens(s, l, tables, from);
      StepKeepsCounts(s, l, tables);
      StepKeepsLane(s, l, tables, from, to);
      RunKeepsInv(Next(s, l, tables), labels[1..], tables, from, to);
    }
  }

  /* ----- Main results ----- */

  /** A process: its lane, how many requests its circuit keeps in reserve, and its append-only tables. */
  datatype Process = Process(
    rate: real, burst: real, share: Option<real>, maxWaitMs: int, reserve: real, start: int, tables: seq<string>)
  {
    predicate Ok() {
      burst >= 1.0 && rate > 0.0 && (share.Some? ==> 0.0 < share.value < 1.0)
    }

    function Lane(): Rate.Lane
      requires Ok()
    {
      Rate.NewLane(rate, burst, share, maxWaitMs, start)
    }

    function First(): State
      requires Ok()
    {
      Start(Lane(), reserve)
    }

    ghost predicate Runs(labels: seq<Label>)
      requires Ok()
    {
      CanRun(First(), labels, tables)
    }

    ghost function Last(labels: seq<Label>): State
      requires Ok() && Runs(labels)
    {
      RunAll(First(), labels, tables)
    }
  }

  lemma FirstInv(p: Process, to: int)
    requires p.Ok() && p.start <= to
    ensures Inv(p.First(), p.tables, p.start, to)
  {
    var lane := p.Lane();
    Rate.MoreTime(lane.bucket, 0, to - p.start);
    if lane.sub.Some? {
      Rate.MoreTime(lane.sub.value, 0, to - p.start);
    }
  }

  lemma LastInv(p: Process, labels: seq<Label>, to: int)
    requires p.Ok() && p.Runs(labels) && p.start <= to
    ensures var s := p.Last(labels);
            Sound(s) && Inv(s, p.tables, p.start, to) && RateWindows.SameLimits(s.lane, p.Lane())
  {
    hide CanRun, RunAll, Inv;
    FirstInv(p, to);
    RunKeepsInv(p.First(), labels, p.tables, p.start, to);
  }

  /** Nobody sends before the end of a block that any earlier answer to anybody asked for. */
  lemma BlocksAreKept(p: Process, labels: seq<Label>)
    requires p.Ok() && p.Runs(labels)
    ensures var history := p.Last(labels).history;
            forall i, j :: 0 <= i < j < |history| && history[i].Blocked? && history[j].Request? ==>
                             history[j].time >= history[i].until
  {
    hide CanRun, RunAll;
    LastInv(p, labels, p.start);
  }

  /** Every request spends a token of its own, handed out before it was sent. */
  lemma RequestsSpendTokens(p: Process, labels: seq<Label>)
    requires p.Ok() && p.Runs(labels)
    ensures var s := p.Last(labels);
            && (forall i :: 0 <= i < |s.history| && s.history[i].Request? ==>
                              HandedOut(s.lane, s.history[i].token, s.history[i].time))
            && (forall i, j :: 0 <= i < j < |s.history| && s.history[i].Request? && s.history[j].Request? ==>
                                 s.history[i].token != s.history[j].token)
  {
    hide CanRun, RunAll;
    LastInv(p, labels, p.start);
  }

  /** A work is sent at most as often as its attempts allow, and again only if it names no rows to write. */
  lemma OnlyReadsAreSentAgain(p: Process, labels: seq<Label>, c: nat)
    requires p.Ok() && p.Runs(labels) && c < |p.Last(labels).calls|
    ensures var s := p.Last(labels);
            var call := s.calls[c];
            && RequestsOf(s.history, c) <= call.maxAttempts
            && (RequestsOf(s.history, c) > 1 ==>
                  && call.work.Batch?
                  && forall statement :: statement in call.work.statements ==> SqlLimits.NamesNoRows(statement))
  {
    hide CanRun, RunAll;
    LastInv(p, labels, p.start);
    var s := p.Last(labels);
    var call := s.calls[c];
    CallSends(call, p.tables);
    if call.sends > 1 {
      SqlLimits.ReadOnlyBatchWritesNoRows(call.work.statements, p.tables);
    }
  }

  lemma CallSends(call: Call, tables: seq<string>)
    requires CallOk(call, tables)
    ensures call.sends <= call.maxAttempts && (call.sends > 1 ==> ReadOnlyWork(call.work, tables))
  {
    hide ReadOnlyWork, Accepts;
  }

  /**
   * A work is refused exactly when its checks fail, and what is sent passed them: a batch has only
   * statements within the limits, one for the raw endpoint only reads, a script has statements of
   * acceptable size.
   */
  lemma OnlyCheckedIsSent(p: Process, labels: seq<Label>, c: nat)
    requires p.Ok() && p.Runs(labels) && c < |p.Last(labels).calls|
    ensures var s := p.Last(labels);
            var call := s.calls[c];
            && (call.phase == Ended(Invalid) <==> !Accepts(call.work, p.tables))
            && (RequestsOf(s.history, c) > 0 ==>
                  match call.work
                  case Batch(statements, raw) =>
                    && statements != [] && (forall k :: k in statements ==> SqlLimits.Fits(k, p.tables))
                    && (raw ==> forall k :: k in statements ==> SqlLimits.Reads(k) && SqlLimits.NamesNoRows(k))
                  case Script(sql) => ScriptFits(sql))
  {
    hide CanRun, RunAll, Accepts;
    LastInv(p, labels, p.start);
    var call := p.Last(labels).calls[c];
    assert CallOk(call, p.tables);
    if Accepts(call.work, p.tables) {
      AcceptedWork(call.work, p.tables);
    }
  }

  lemma AcceptedWork(work: Work, tables: seq<string>)
    requires Accepts(work, tables)
    ensures match work
            case Batch(statements, raw) =>
              && statements != [] && (forall k :: k in statements ==> SqlLimits.Fits(k, tables))
              && (raw ==> forall k :: k in statements ==> SqlLimits.Reads(k) && SqlLimits.NamesNoRows(k))
            case Script(sql) => ScriptFits(sql)
  {
    hide SqlLimits.Fits, SqlLimits.Reads, SqlLimits.NamesNoRows, ScriptFits;
    if work.Batch? && work.raw {
      SqlLimits.ReadOnlyBatchWritesNoRows(work.statements, tables);
    }
  }

  /** A call that is over recorded exactly one outcome, and one that is not over none. */
  lemma OneOutcomeEach(p: Process, labels: seq<Label>, c: nat)
    requires p.Ok() && p.Runs(labels) && c < |p.Last(labels).calls|
    ensures var call := p.Last(labels).calls[c];
            call.recorded == if call.phase.Ended? then [call.phase.outcome] else []
  {
    hide CanRun, RunAll, ReadOnlyWork, Accepts;
    LastInv(p, labels, p.start);
    assert CallOk(p.Last(labels).calls[c], p.tables);
  }

  /** An unknown outcome is reported only of a write, and only of one that was sent, once. */
  lemma UnknownMeansSentWrite(p: Process, labels: seq<Label>, c: nat)
    requires p.Ok() && p.Runs(labels) && c < |p.Last(labels).calls|
    requires p.Last(labels).calls[c].phase == Ended(UnknownOutcome)
    ensures !p.Last(labels).calls[c].readOnly && RequestsOf(p.Last(labels).history, c) == 1
  {
    hide CanRun, RunAll, ReadOnlyWork, Accepts;
    LastInv(p, labels, p.start);
    assert CallOk(p.Last(labels).calls[c], p.tables);
  }

  /** The outcome of a write tells whether it was sent. */
  lemma WriteOutcomeTells(p: Process, labels: seq<Label>, c: nat)
    requires p.Ok() && p.Runs(labels) && c < |p.Last(labels).calls|
    requires p.Last(labels).calls[c].phase.Ended? && !p.Last(labels).calls[c].readOnly
    ensures RequestsOf(p.Last(labels).history, c) == if p.Last(labels).calls[c].phase.outcome in NOT_SENT then 0 else 1
  {
    hide CanRun, RunAll, ReadOnlyWork, Accepts;
    LastInv(p, labels, p.start);
    assert CallOk(p.Last(labels).calls[c], p.tables);
  }

  /** Snapshots lose nothing: what they and the current window count is what happened. */
  lemma SnapshotsAddUp(p: Process, labels: seq<Label>)
    requires p.Ok() && p.Runs(labels)
    ensures var s := p.Last(labels);
            && s.published.outcomes + s.counters.outcomes == RecordedOf(s.calls)
            && s.published.sent + s.counters.requestsSent == Requests(s.history)
  {
    hide CanRun, RunAll;
    LastInv(p, labels, p.start);
  }

  /* ----- The request budget ----- */

  function TokenSet(history: seq<Event>): set<nat> {
    set i | 0 <= i < |history| && history[i].Request? :: history[i].token
  }

  function GrantSet(log: seq<Rate.Grant>): set<nat> {
    set i | 0 <= i < |log| :: log[i].id
  }

  lemma {:induction false} EveryTokenOnce(history: seq<Event>)
    requires forall i, j :: 0 <= i < j < |history| && history[i].Request? && history[j].Request? ==>
                              history[i].token != history[j].token
    ensures |TokenSet(history)| == Requests(history)
  {
    if history != [] {
      var front, last := history[..|history| - 1], history[|history| - 1];
      EveryTokenOnce(front);
      if last.Request? {
        assert TokenSet(history) == TokenSet(front) + {last.token};
      } else {
        assert TokenSet(history) == TokenSet(front);
      }
    }
  }

  lemma {:induction false} AtMostOneEach(log: seq<Rate.Grant>)
    ensures |GrantSet(log)| <= |log|
  {
    if log != [] {
      AtMostOneEach(log[..|log| - 1]);
      assert GrantSet(log) == GrantSet(log[..|log| - 1]) + {log[|log| - 1].id};
    }
  }

  lemma {:induction false} AllInWindow(log: seq<Rate.Grant>, from: int, to: int)
    requires forall i :: 0 <= i < |log| ==> from <= log[i].time <= to
    ensures RateWindows.CountIn(log, from, to) == |log|
  {
    if log != [] {
      AllInWindow(log[..|log| - 1], from, to);
    }
  }

  lemma SmallerSet(a: set<nat>, b: set<nat>)
    requires a <= b
    ensures |a| <= |b|
  {
    assert b == a + (b - a);
  }

  lemma NoMoreThanTokens(s: State, from: int)
    requires TokensOk(s, from)
    ensures Requests(s.history) <= |s.lane.log|
  {
    EveryTokenOnce(s.history);
    AtMostOneEach(s.lane.log);
    forall token | token in TokenSet(s.history)
      ensures token in GrantSet(s.lane.log)
    {
      var i :| 0 <= i < |s.history| && s.history[i].Request? && s.history[i].token == token;
      assert HandedOut(s.lane, token, s.history[i].time);
      var k :| 0 <= k < |s.lane.log| && s.lane.log[k].id == token;
    }
    SmallerSet(TokenSet(s.history), GrantSet(s.lane.log));
  }

  /** All clients of a process together never send more than the lane's burst plus its rate allows. */
  lemma RequestBudget(p: Process, labels: seq<Label>)
    requires p.Ok() && p.Runs(labels)
    ensures var s := p.Last(labels);
            s.now >= p.start && Requests(s.history) as real <= p.burst + Rate.Credit(p.rate, s.now - p.start)
  {
    hide CanRun, RunAll, Inv, TokensOk, RateWindows.WindowsOk, Requests;
    LastInv(p, labels, p.start);
    var s := p.Last(labels);
    LastIsLater(p, s);
    LastInv(p, labels, s.now);
    LaneCount(p, s);
  }

  lemma LastIsLater(p: Process, s: State)
    requires p.Ok() && Inv(s, p.tables, p.start, p.start)
    ensures s.now >= p.start
  {
  }

  lemma LaneCount(p: Process, s: State)
    requires p.Ok() && p.start <= s.now && Inv(s, p.tables, p.start, s.now) && RateWindows.SameLimits(s.lane, p.Lane())
    ensures Requests(s.history) as real <= p.burst + Rate.Credit(p.rate, s.now - p.start)
  {
    hide CallsOk, CircuitOk, CountsOk, Rate.Credit, Rate.WindowOk, Requests;
    NoMoreThanTokens(s, p.start);
    AllInWindow(s.lane.log, p.start, s.now);
    Rate.WindowBound(s.lane.bucket, RateWindows.CountIn(s.lane.log, p.start, s.now), p.start, s.now);
  }
}
