/** packages/db/src/d1-rest-client.ts: what a call ends with, told from the answers it got. */
module D1Outcomes {
  import opened Wrappers
  import opened Numbers
  import opened D1Circuit
  import opened D1Counters
  import opened D1Client
  import opened D1Safety
  import opened D1Runs
  import Rate = RateLimit

  /* ----- Answers ----- */

  predicate IsAnswerTo(l: Label, c: nat) {
    l.Answer? && l.call == c
  }

  /** The last answer to a call, a lost one included. */
  function LastAnswer(labels: seq<Label>, c: nat): Option<Reply> {
    if labels == [] then None
    else
      var n := |labels| - 1;
      if IsAnswerTo(labels[n], c) then Some(labels[n].reply) else LastAnswer(labels[..n], c)
  }

  /** How many answers a call got. */
  function Answers(labels: seq<Label>, c: nat): nat {
    if labels == [] then 0
    else Answers(labels[..|labels| - 1], c) + if IsAnswerTo(labels[|labels| - 1], c) then 1 else 0
  }

  predicate HasEnvelope(r: Reply) {
    r.Http? && (r.status == 200 || r.status == 400)
  }

  predicate GivesResults(r: Reply) {
    HasEnvelope(r) && r.body == Results
  }

  predicate FailsForGood(r: Reply) {
    HasEnvelope(r) && r.body == FailedBatch(false)
  }

  predicate AsksToWait(r: Reply) {
    r.Http? && r.status == 429
  }

  predicate RefusesToken(r: Reply) {
    r.Http? && (r.status == 401 || r.status == 403)
  }

  predicate RejectsRequest(r: Reply) {
    r.Http? && r.status < 500 && r.status !in {200, 400, 401, 403, 429}
  }

  /** Nobody can tell from it what became of the request. */
  predicate TellsNothing(r: Reply) {
    || r.Lost? || r.status >= 500
    || (HasEnvelope(r) && (r.body == BadResponse || r.body == FailedBatch(true)))
  }

  /** One of these that is worth another attempt: no timeout and no abort. */
  predicate WorthRetrying(r: Reply) {
    TellsNothing(r) && r != Lost(Timeout) && r != Lost(AbortedSend)
  }

  /* ----- What a call shows of its answers ----- */

  /** The outcome that follows from the last of `n` answers. */
  predicate OutcomeFits(outcome: Outcome, readOnly: bool, maxAttempts: nat, r: Reply, n: nat) {
    && (outcome == OkOutcome <==> GivesResults(r))
    && (outcome == StatementFailed <==> FailsForGood(r))
    && (outcome == Http429Outcome <==> AsksToWait(r))
    && (outcome == Unauthorized <==> RefusesToken(r))
    && (outcome == Rejected <==> RejectsRequest(r))
    && (outcome == UnknownOutcome <==> TellsNothing(r) && !readOnly)
    && (outcome == Unavailable <==>
          TellsNothing(r) && readOnly && r != Lost(AbortedSend) && (WorthRetrying(r) ==> n == maxAttempts))
    && (readOnly && r == Lost(AbortedSend) ==> outcome == AbortedOutcome)
  }

  const LATER := {CircuitOpen, ShedOutcome, QueueTimeoutOutcome, AbortedOutcome}

  ghost predicate Told(call: Call, last: Option<Reply>, n: nat) {
    && (n == 0 <==> last.None?)
    && match call.phase
       case BackingOff => call.attempt == n < call.maxAttempts && call.readOnly && last.Some? && WorthRetrying(last.value)
       case Ended(outcome) =>
         if last.None? then outcome == Invalid || outcome in LATER
         else
           && OutcomeFits(outcome, call.readOnly, call.maxAttempts, last.value, n) && n <= call.maxAttempts
           && (call.readOnly && WorthRetrying(last.value) && n < call.maxAttempts ==> outcome in LATER)
       case _ => call.attempt == n + 1 && (last.Some? ==> call.readOnly && WorthRetrying(last.value))
  }

  ghost predicate AllTold(s: State, labels: seq<Label>) {
    && (forall c :: 0 <= c < |s.calls| ==> Told(s.calls[c], LastAnswer(labels, c), Answers(labels, c)))
    && (forall c: nat :: c >= |s.calls| ==> LastAnswer(labels, c).None? && Answers(labels, c) == 0)
  }

  lemma AnswersPush(labels: seq<Label>, l: Label, c: nat)
    ensures LastAnswer(labels + [l], c) == if IsAnswerTo(l, c) then Some(l.reply) else LastAnswer(labels, c)
    ensures Answers(labels + [l], c) == Answers(labels, c) + if IsAnswerTo(l, c) then 1 else 0
  {
    assert (labels + [l])[..|labels|] == labels;
  }

  /** The call that a step is about, after the step. */
  lemma OtherCallsStay(s: State, l: Label, tables: seq<string>, c: nat)
    requires s.lane.BucketsOk() && Enabled(s, l) && c < |s.calls| && (l.Submit? || l.LaneWakes? || l.TakeSnapshot? || l.call != c)
    ensures c < |Next(s, l, tables).calls| && Next(s, l, tables).calls[c] == s.calls[c]
  {
    hide Rate.Happen, Rate.Acquire, Accepts, ReadOnlyWork, Observed;
    if l.Answer? && l.reply.Http? {
      SeenCalls(s, l.reply.policies, l.at);
    }
  }

  lemma FinishTells(s: State, c: nat, outcome: Outcome, r: Reply, n: nat)
    requires c < |s.calls| && n < s.calls[c].maxAttempts && OutcomeFits(outcome, s.calls[c].readOnly, s.calls[c].maxAttempts, r, n + 1)
    requires s.calls[c].readOnly && WorthRetrying(r) && n + 1 < s.calls[c].maxAttempts ==> outcome in LATER
    ensures var t := Finish(s, c, outcome);
            |t.calls| == |s.calls| && Told(t.calls[c], Some(r), n + 1)
  {
    hide OutcomeFits, WorthRetrying;
  }

  /** Without a usable answer: another attempt, or the end. */
  lemma RetryTells(s: State, c: nat, r: Reply, n: nat)
    requires c < |s.calls| && s.calls[c].attempt == n + 1 <= s.calls[c].maxAttempts && WorthRetrying(r)
    requires !s.calls[c].readOnly ==> s.calls[c].maxAttempts == 1
    ensures var t := RetryOr(s, c, GivenUp(s.calls[c]));
            |t.calls| == |s.calls| && Told(t.calls[c], Some(r), n + 1)
  {
    if !CanRetry(s.calls[c]) {
      FinishTells(s, c, GivenUp(s.calls[c]), r, n);
    }
  }

  lemma HttpTells(s: State, c: nat, at: int, reply: Reply, last: Option<Reply>, n: nat)
    requires c < |s.calls| && s.calls[c].phase.Sending? && Told(s.calls[c], last, n) && reply.Http?
    requires var call := s.calls[c]; call.attempt <= call.maxAttempts && (!call.readOnly ==> call.maxAttempts == 1)
    ensures var t := Answered(s, c, at, reply);
            |t.calls| == |s.calls| && Told(t.calls[c], Some(reply), n + 1)
  {
    assert s.calls[c].attempt == n + 1;
    SeenCalls(s, reply.policies, at);
    hide Observed, Told, Finish, RetryOr;
    var seen, ms := Observed(s, reply.policies, at), RetryMs(reply.retryAfter, at);
    if reply.status == 429 {
      FinishTells(seen.(circuit := Open(seen.circuit, ms, Http429, at), history := seen.history + [Blocked(at + ms)]),
                  c, Http429Outcome, reply, n);
    } else if reply.status == 401 || reply.status == 403 {
      FinishTells(seen, c, Unauthorized, reply, n);
    } else if HasEnvelope(reply) && reply.body.Results? {
      FinishTells(seen, c, OkOutcome, reply, n);
    } else if HasEnvelope(reply) && reply.body.FailedBatch? && !reply.body.retryable {
      FinishTells(seen, c, StatementFailed, reply, n);
    } else if TellsNothing(reply) {
      RetryTells(seen, c, reply, n);
    } else {
      FinishTells(seen, c, Rejected, reply, n);
    }
  }

  lemma AnswerTells(s: State, c: nat, at: int, reply: Reply, last: Option<Reply>, n: nat)
    requires c < |s.calls| && s.calls[c].phase.Sending? && Told(s.calls[c], last, n)
    requires var call := s.calls[c]; call.attempt <= call.maxAttempts && (!call.readOnly ==> call.maxAttempts == 1)
    ensures var t := Answered(s, c, at, reply);
            |t.calls| == |s.calls| && Told(t.calls[c], Some(reply), n + 1)
  {
    var call := s.calls[c];
    assert call.attempt == n + 1;
    if reply.Http? {
      HttpTells(s, c, at, reply, last, n);
    } else if reply.failure == Network {
      RetryTells(s, c, reply, n);
    } else if reply.failure == AbortedSend && call.readOnly {
      FinishTells(s, c, AbortedOutcome, reply, n);
    } else {
      FinishTells(s, c, GivenUp(call), reply, n);
    }
  }

  /** A call ends without a further answer. */
  lemma LeavesTells(s: State, c: nat, outcome: Outcome, last: Option<Reply>, n: nat)
    requires c < |s.calls| && !s.calls[c].phase.Ended? && !s.calls[c].phase.Sending? && outcome in LATER
    requires Told(s.calls[c], last, n) && s.calls[c].attempt <= s.calls[c].maxAttempts
    ensures var t := Finish(s, c, outcome);
            |t.calls| == |s.calls| && Told(t.calls[c], last, n)
  {
  }

  lemma BeginTells(s: State, c: nat, at: int, aborted: bool, last: Option<Reply>, n: nat)
    requires s.lane.BucketsOk() && c < |s.calls| && s.calls[c].phase.Starting?
    requires Told(s.calls[c], last, n) && s.calls[c].attempt <= s.calls[c].maxAttempts
    ensures var t := Begun(s, c, at, aborted);
            |t.calls| == |s.calls| && Told(t.calls[c], last, n)
  {
    hide Rate.Happen, Rate.Acquire, WorthRetrying, OutcomeFits, Finish;
    var asked := s.(lane := Rate.Happen(s.lane, Rate.Call(at, s.calls[c].priority, aborted)));
    LeavesTells(s, c, CircuitOpen, last, n);
    LeavesTells(asked, c, ShedOutcome, last, n);
    LeavesTells(asked, c, QueueTimeoutOutcome, last, n);
    LeavesTells(asked, c, AbortedOutcome, last, n);
  }

  lemma ResumeTells(s: State, c: nat, at: int, aborted: bool, last: Option<Reply>, n: nat)
    requires c < |s.calls| && s.calls[c].phase.Waiting?
    requires Told(s.calls[c], last, n) && s.calls[c].attempt <= s.calls[c].maxAttempts
    ensures var t := Resumed(s, c, at, aborted);
            |t.calls| == |s.calls| && Told(t.calls[c], last, n)
  {
    hide WorthRetrying, OutcomeFits, Finish, Waited;
    var phase := s.calls[c].phase;
    var counted := s.(counters := Waited(s.counters, if phase.queued then at - phase.since else 0));
    LeavesTells(counted, c, CircuitOpen, last, n);
    LeavesTells(counted, c, AbortedOutcome, last, n);
  }

  lemma SleptTells(s: State, c: nat, aborted: bool, last: Option<Reply>, n: nat)
    requires c < |s.calls| && s.calls[c].phase.BackingOff?
    requires Told(s.calls[c], last, n) && s.calls[c].attempt <= s.calls[c].maxAttempts
    ensures var t := Awake(s, c, aborted);
            |t.calls| == |s.calls| && Told(t.calls[c], last, n)
  {
    hide WorthRetrying, OutcomeFits, Finish;
    LeavesTells(s, c, AbortedOutcome, last, n);
  }

  /** A step of a call that is no answer. */
  lemma QuietStepTells(s: State, l: Label, tables: seq<string>, c: nat, last: Option<Reply>, n: nat)
    requires s.lane.BucketsOk() && Enabled(s, l) && (l.Begin? || l.LeaveQueue? || l.Resume? || l.Slept?) && l.call == c
    requires Told(s.calls[c], last, n) && s.calls[c].attempt <= s.calls[c].maxAttempts
    ensures c < |Next(s, l, tables).calls| && Told(Next(s, l, tables).calls[c], last, n)
  {
    hide Rate.Happen, Begun, Resumed, Awake, Finish, Told;
    if l.Begin? {
      BeginTells(s, c, l.at, l.aborted, last, n);
    } else if l.LeaveQueue? {
      LeavesTells(s.(lane := Rate.Happen(s.lane, Rate.Leave(l.at, s.calls[c].phase.token))), c, AbortedOutcome, last, n);
    } else if l.Resume? {
      ResumeTells(s, c, l.at, l.aborted, last, n);
    } else {
      SleptTells(s, c, l.aborted, last, n);
    }
  }

  lemma SubmitTells(s: State, work: Work, attempts: int, priority: Rate.Priority, tables: seq<string>)
    ensures var t := Submitted(s, work, attempts, priority, tables);
            && |t.calls| == |s.calls| + 1 && Told(t.calls[|s.calls|], None, 0)
  {
    hide Accepts, ReadOnlyWork;
  }

  lemma StepTells(s: State, l: Label, tables: seq<string>, labels: seq<Label>)
    requires s.lane.BucketsOk() && Enabled(s, l) && CallsOk(s, tables) && AllTold(s, labels)
    ensures AllTold(Next(s, l, tables), labels + [l])
  {
    hide Next, Told, LastAnswer, Answers, Enabled, CallsOk;
    var t := Next(s, l, tables);
    StepCount(s, l, tables);
    forall c: nat
      ensures if c < |t.calls| then Told(t.calls[c], LastAnswer(labels + [l], c), Answers(labels + [l], c))
              else LastAnswer(labels + [l], c).None? && Answers(labels + [l], c) == 0
    {
      AnswersPush(labels, l, c);
      CallTells(s, l, tables, c, LastAnswer(labels, c), Answers(labels, c));
    }
  }

  lemma StepCount(s: State, l: Label, tables: seq<string>)
    requires s.lane.BucketsOk() && Enabled(s, l)
    ensures |Next(s, l, tables).calls| == |s.calls| + if l.Submit? then 1 else 0
    ensures l.Answer? ==> l.call < |s.calls|
  {
    hide Rate.Happen, Rate.Acquire, Accepts, ReadOnlyWork, Observed;
    if l.Answer? && l.reply.Http? {
      SeenCalls(s, l.reply.policies, l.at);
    }
  }

  lemma CallTells(s: State, l: Label, tables: seq<string>, c: nat, last: Option<Reply>, n: nat)
    requires s.lane.BucketsOk() && Enabled(s, l) && CallsOk(s, tables)
    requires if c < |s.calls| then Told(s.calls[c], last, n) else last.None? && n == 0
    ensures var t := Next(s, l, tables);
            c < |t.calls| ==> Told(t.calls[c], if IsAnswerTo(l, c) then Some(l.reply) else last,
                                   n + if IsAnswerTo(l, c) then 1 else 0)
  {
    hide Told, Submitted, Answered, SendsOk, Accepts, ReadOnlyWork;
    StepCount(s, l, tables);
    if c == |s.calls| {
      if l.Submit? {
        SubmitTells(s, l.work, l.maxReadAttempts, l.priority, tables);
      }
    } else if c < |s.calls| {
      assert CallOk(s.calls[c], tables);
      if l.Submit? || l.LaneWakes? || l.TakeSnapshot? || l.call != c {
        OtherCallsStay(s, l, tables, c);
      } else if l.Answer? {
        AnswerTells(s, c, l.at, l.reply, last, n);
      } else {
        QuietStepTells(s, l, tables, c, last, n);
      }
    }
  }

  lemma {:induction false} RunTells(s: State, done: seq<Label>, labels: seq<Label>, tables: seq<string>)
    requires Sound(s) && CallsOk(s, tables) && AllTold(s, done) && CanRun(s, labels, tables)
    ensures AllTold(RunAll(s, labels, tables), done + labels)
    decreases |labels|
  {
    hide Next, Enabled, CallsOk, AllTold;
    if labels == [] {
      assert done + labels == done;
    } else {
      var l := labels[0];
      StepIsSound(s, l, tables);
      StepKeepsCalls(s, l, tables);
      StepTells(s, l, tables, done);
      RunTells(Next(s, l, tables), done + [l], labels[1..], tables);
      assert done + [l] + labels[1..] == done + labels;
    }
  }

  lemma FirstTells(p: Process)
    requires p.Ok()
    ensures CallsOk(p.First(), p.tables) && AllTold(p.First(), [])
  {
  }

  lemma LastTells(p: Process, labels: seq<Label>, c: nat)
    requires p.Ok() && p.Runs(labels) && c < |p.Last(labels).calls|
    ensures Told(p.Last(labels).calls[c], LastAnswer(labels, c), Answers(labels, c))
  {
    hide CanRun, RunAll, Told;
    FirstTells(p);
    RunTells(p.First(), [], labels, p.tables);
    assert [] + labels == labels;
  }

  /* ----- Outcomes ----- */

  /**
   * In every run a call has ended well, with a failed statement, with a 429, unauthorized or rejected exactly
   * when its last answer says so; and a write with an unknown outcome exactly when it tells nothing.
   */
  lemma OutcomeIsAnswer(p: Process, labels: seq<Label>, c: nat)
    requires p.Ok() && p.Runs(labels) && c < |p.Last(labels).calls|
    ensures var call, last := p.Last(labels).calls[c], LastAnswer(labels, c);
            && (call.phase == Ended(OkOutcome) <==> last.Some? && GivesResults(last.value))
            && (call.phase == Ended(StatementFailed) <==> last.Some? && FailsForGood(last.value))
            && (call.phase == Ended(Http429Outcome) <==> last.Some? && AsksToWait(last.value))
            && (call.phase == Ended(Unauthorized) <==> last.Some? && RefusesToken(last.value))
            && (call.phase == Ended(Rejected) <==> last.Some? && RejectsRequest(last.value))
            && (call.phase == Ended(UnknownOutcome) <==> last.Some? && TellsNothing(last.value) && !call.readOnly)
  {
    hide CanRun, RunAll;
    LastTells(p, labels, c);
  }

  /**
   * A read whose last answer tells nothing ends unavailable, or aborted when the abort was the answer, unless
   * the answer is worth another attempt and one is left; then it goes on, and can only end before it is sent
   * again. It never gets more answers than attempts.
   */
  lemma ReadGoesOn(p: Process, labels: seq<Label>, c: nat)
    requires p.Ok() && p.Runs(labels) && c < |p.Last(labels).calls|
    requires p.Last(labels).calls[c].readOnly && LastAnswer(labels, c).Some? && TellsNothing(LastAnswer(labels, c).value)
    ensures var call, r, n := p.Last(labels).calls[c], LastAnswer(labels, c).value, Answers(labels, c);
            && n <= call.maxAttempts
            && if WorthRetrying(r) && n < call.maxAttempts then call.phase.Ended? ==> call.phase.outcome in LATER
               else call.phase == Ended(if r == Lost(AbortedSend) then AbortedOutcome else Unavailable)
  {
    hide CanRun, RunAll;
    FirstTells(p);
    LastTells(p, labels, c);
    LastInv(p, labels, p.start);
    assert CallOk(p.Last(labels).calls[c], p.tables);
  }

  /** A call without an answer is on its way, or ended before it was sent. */
  lemma UnansweredCall(p: Process, labels: seq<Label>, c: nat)
    requires p.Ok() && p.Runs(labels) && c < |p.Last(labels).calls| && LastAnswer(labels, c).None?
    ensures var phase := p.Last(labels).calls[c].phase;
            phase.Ended? ==> phase.outcome == Invalid || phase.outcome in LATER
  {
    hide CanRun, RunAll;
    LastTells(p, labels, c);
  }

  /* ----- The step that ends a call ----- */

  lemma {:induction false} RunSnoc(s: State, front: seq<Label>, l: Label, tables: seq<string>)
    requires Sound(s) && CanRun(s, front + [l], tables)
    ensures CanRun(s, front, tables) && Sound(RunAll(s, front, tables)) && Enabled(RunAll(s, front, tables), l)
    ensures RunAll(s, front + [l], tables) == Next(RunAll(s, front, tables), l, tables)
    decreases |front|
  {
    hide Next, Enabled;
    var all := front + [l];
    StepIsSound(s, all[0], tables);
    if front == [] {
      assert all[1..] == [];
    } else {
      assert all[1..] == front[1..] + [l];
      RunSnoc(Next(s, all[0], tables), front[1..], l, tables);
    }
  }

  lemma AnswerPhase(s: State, c: nat, at: int, reply: Reply)
    requires c < |s.calls|
    ensures var t := Answered(s, c, at, reply);
            && |t.calls| == |s.calls|
            && t.calls[c].readOnly == s.calls[c].readOnly && t.calls[c].maxAttempts == s.calls[c].maxAttempts
            && (t.calls[c].phase.BackingOff? <==>
                  s.calls[c].readOnly && WorthRetrying(reply) && s.calls[c].attempt < s.calls[c].maxAttempts)
            && (!t.calls[c].phase.BackingOff? ==> t.calls[c].phase.Ended?)
  {
    hide Observed;
    if reply.Http? {
      SeenCalls(s, reply.policies, at);
    }
  }

  /** After an answer a call is over, but for a read with an answer worth retrying and an attempt left. */
  lemma TriedAgainExactly(p: Process, front: seq<Label>, c: nat, at: int, reply: Reply)
    requires p.Ok() && p.Runs(front + [Answer(c, at, reply)])
    ensures var labels := front + [Answer(c, at, reply)];
            && c < |p.Last(labels).calls|
            && var call := p.Last(labels).calls[c];
            && (call.phase.BackingOff? <==> call.readOnly && WorthRetrying(reply) && Answers(labels, c) < call.maxAttempts)
            && (!call.phase.BackingOff? ==> call.phase.Ended?)
  {
    hide CanRun, RunAll, Answered;
    var l := Answer(c, at, reply);
    RunSnoc(p.First(), front, l, p.tables);
    var s := p.Last(front);
    AnswerPhase(s, c, at, reply);
    LastTells(p, front, c);
    AnswersPush(front, l, c);
  }
}
