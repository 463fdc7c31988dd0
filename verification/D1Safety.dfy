/** packages/db/src/d1-rest-client.ts: what holds in every run of clients that share a lane and a circuit. */
module D1Safety {
  import opened Numbers
  import opened D1Circuit
  import opened D1Counters
  import opened D1Client
  import Rate = RateLimit

  /* ----- Each call ----- */

  /** Outcomes of a write that was not sent. */
  const NOT_SENT := {CircuitOpen, ShedOutcome, QueueTimeoutOutcome, Invalid, AbortedOutcome}

  /** Outcomes of an attempt that was refused before it was sent. */
  const REFUSED := {CircuitOpen, ShedOutcome, QueueTimeoutOutcome, Invalid}

  /** How often the call has been sent, by its phase. */
  predicate SendsOk(call: Call) {
    match call.phase
    case Starting => call.sends == call.attempt - 1
    case Waiting(_, _, _) => call.sends == call.attempt - 1
    case Sending => call.sends == call.attempt
    case BackingOff => call.sends == call.attempt && CanRetry(call)
    case Ended(outcome) =>
      && call.sends <= call.attempt
      && (outcome == UnknownOutcome ==> !call.readOnly)
      && (outcome !in NOT_SENT ==> call.sends >= 1)
      && (outcome == Invalid ==> call.sends == 0)
      && (outcome in REFUSED ==> call.sends == call.attempt - 1)
      && (!call.readOnly ==> call.sends == if outcome in NOT_SENT then 0 else 1)
  }

  predicate CallOk(call: Call, tables: seq<string>) {
    && 1 <= call.attempt <= call.maxAttempts
    && (!call.readOnly ==> call.maxAttempts == 1)
    && (call.readOnly ==> ReadOnlyWork(call.work, tables))
    && call.recorded == (if call.phase.Ended? then [call.phase.outcome] else [])
    && SendsOk(call)
    && (call.phase == Ended(Invalid) <==> !Accepts(call.work, tables))
  }

  predicate CallsOk(s: State, tables: seq<string>) {
    forall c :: 0 <= c < |s.calls| ==> CallOk(s.calls[c], tables)
  }

  lemma FinishKeepsCalls(s: State, c: nat, outcome: Outcome, tables: seq<string>)
    requires CallsOk(s, tables) && c < |s.calls| && !s.calls[c].phase.Ended?
    requires SendsOk(s.calls[c].(phase := Ended(outcome))) && outcome != Invalid
    ensures CallsOk(Finish(s, c, outcome), tables)
  {
    hide ReadOnlyWork, Accepts;
    assert CallOk(s.calls[c], tables);
  }

  lemma RetryKeepsCalls(s: State, c: nat, tables: seq<string>)
    requires CallsOk(s, tables) && c < |s.calls| && s.calls[c].phase.Sending?
    ensures CallsOk(RetryOr(s, c, GivenUp(s.calls[c])), tables)
  {
    hide ReadOnlyWork, Accepts;
    assert CallOk(s.calls[c], tables);
    if !CanRetry(s.calls[c]) {
      FinishKeepsCalls(s, c, GivenUp(s.calls[c]), tables);
    }
  }

  lemma SubmitKeepsCalls(s: State, work: Work, attempts: int, priority: Rate.Priority, tables: seq<string>)
    requires CallsOk(s, tables)
    ensures CallsOk(Submitted(s, work, attempts, priority, tables), tables)
  {
    hide ReadOnlyWork, Accepts;
    var readOnly := ReadOnlyWork(work, tables);
    var max: nat := if readOnly then Max(1, attempts) else 1;
    var call := Call(work, readOnly, max, priority, 1, Starting, 0, []);
    var added := s.(calls := s.calls + [call]);
    var refused := call.(phase := Ended(Invalid), recorded := [Invalid]);
    assert if Accepts(work, tables) then CallOk(call, tables) else CallOk(refused, tables);
    assert s.calls + [refused] == added.calls[|s.calls| := refused];
  }

  lemma BeginKeepsCalls(s: State, c: nat, at: int, aborted: bool, tables: seq<string>)
    requires CallsOk(s, tables) && Enabled(s, Begin(c, at, aborted)) && s.lane.BucketsOk()
    ensures CallsOk(Begun(s, c, at, aborted), tables)
  {
    hide ReadOnlyWork, Accepts, Rate.Acquire, Rate.Happen;
    assert CallOk(s.calls[c], tables);
    var asked := s.(lane := Rate.Happen(s.lane, Rate.Call(at, s.calls[c].priority, aborted)));
    if IsOpen(s.circuit, at) {
      FinishKeepsCalls(s, c, CircuitOpen, tables);
    } else {
      match Rate.Acquire(s.lane, at, s.calls[c].priority, aborted).1 {
        case Shed(_) => FinishKeepsCalls(asked, c, ShedOutcome, tables);
        case QueueTimeout(_) => FinishKeepsCalls(asked, c, QueueTimeoutOutcome, tables);
        case Aborted => FinishKeepsCalls(asked, c, AbortedOutcome, tables);
        case _ =>
      }
    }
  }

  lemma ResumeKeepsCalls(s: State, c: nat, at: int, aborted: bool, tables: seq<string>)
    requires CallsOk(s, tables) && Enabled(s, Resume(c, at, aborted))
    ensures CallsOk(Resumed(s, c, at, aborted), tables)
  {
    hide ReadOnlyWork, Accepts;
    assert CallOk(s.calls[c], tables);
    var phase := s.calls[c].phase;
    var counted := s.(counters := Waited(s.counters, if phase.queued then at - phase.since else 0));
    if IsOpen(s.circuit, at) {
      FinishKeepsCalls(counted, c, CircuitOpen, tables);
    } else if aborted {
      FinishKeepsCalls(counted, c, AbortedOutcome, tables);
    }
  }

  lemma AnswerKeepsCalls(s: State, c: nat, at: int, reply: Reply, tables: seq<string>)
    requires CallsOk(s, tables) && Enabled(s, Answer(c, at, reply))
    ensures CallsOk(Answered(s, c, at, reply), tables)
  {
    hide ReadOnlyWork, Accepts, RetryOr, Finish, CanRetry;
    var call := s.calls[c];
    assert CallOk(call, tables);
    if reply.Lost? {
      RetryKeepsCalls(s, c, tables);
      if reply.failure == AbortedSend && call.readOnly {
        FinishKeepsCalls(s, c, AbortedOutcome, tables);
      } else {
        FinishKeepsCalls(s, c, GivenUp(call), tables);
      }
    } else {
      HttpKeepsCalls(Observed(s, reply.policies, at), c, at, tables);
      HttpKeepsCalls(BlockedFor(Observed(s, reply.policies, at), RetryMs(reply.retryAfter, at), at), c, at, tables);
    }
  }

  function BlockedFor(s: State, ms: int, at: int): State {
    s.(circuit := Open(s.circuit, ms, Http429, at), history := s.history + [Blocked(at + ms)])
  }

  lemma HttpKeepsCalls(s: State, c: nat, at: int, tables: seq<string>)
    requires CallsOk(s, tables) && c < |s.calls| && s.calls[c].phase.Sending?
    ensures forall outcome ::
              outcome in {Http429Outcome, Unauthorized, OkOutcome, StatementFailed, Rejected} ==>
                CallsOk(Finish(s, c, outcome), tables)
    ensures CallsOk(RetryOr(s, c, GivenUp(s.calls[c])), tables)
  {
    hide ReadOnlyWork, Accepts, RetryOr, Finish;
    assert CallOk(s.calls[c], tables);
    forall outcome | outcome in {Http429Outcome, Unauthorized, OkOutcome, StatementFailed, Rejected}
      ensures CallsOk(Finish(s, c, outcome), tables)
    {
      FinishKeepsCalls(s, c, outcome, tables);
    }
    RetryKeepsCalls(s, c, tables);
  }

  lemma AwakeKeepsCalls(s: State, c: nat, aborted: bool, tables: seq<string>)
    requires CallsOk(s, tables) && c < |s.calls| && s.calls[c].phase.BackingOff?
    ensures CallsOk(Awake(s, c, aborted), tables)
  {
    hide ReadOnlyWork, Accepts;
    assert CallOk(s.calls[c], tables);
    if aborted {
      FinishKeepsCalls(s, c, AbortedOutcome, tables);
    }
  }

  lemma StepKeepsCalls(s: State, l: Label, tables: seq<string>)
    requires CallsOk(s, tables) && s.lane.BucketsOk() && Enabled(s, l)
    ensures CallsOk(Next(s, l, tables), tables)
  {
    hide CallOk, Submitted, Begun, Resumed, Answered, Awake, Rate.Happen, Finish;
    match l {
      case Submit(work, attempts, priority) => SubmitKeepsCalls(s, work, attempts, priority, tables);
      case Begin(c, at, aborted) => BeginKeepsCalls(s, c, at, aborted, tables);
      case LaneWakes(_) =>
      case LeaveQueue(c, at) => LeaveKeepsCalls(s, c, at, tables);
      case Resume(c, at, aborted) => ResumeKeepsCalls(s, c, at, aborted, tables);
      case Answer(c, at, reply) => AnswerKeepsCalls(s, c, at, reply, tables);
      case Slept(c, _, aborted) => AwakeKeepsCalls(s, c, aborted, tables);
      case TakeSnapshot(_) =>
    }
  }

  lemma LeaveKeepsCalls(s: State, c: nat, at: int, tables: seq<string>)
    requires CallsOk(s, tables) && s.lane.BucketsOk() && Enabled(s, LeaveQueue(c, at))
    ensures CallsOk(
              Finish(s.(lane := Rate.Happen(s.lane, Rate.Leave(at, s.calls[c].phase.token))), c, AbortedOutcome), tables)
  {
    hide ReadOnlyWork, Accepts, Rate.Happen, Finish;
    assert CallOk(s.calls[c], tables);
    FinishKeepsCalls(s.(lane := Rate.Happen(s.lane, Rate.Leave(at, s.calls[c].phase.token))), c, AbortedOutcome, tables);
  }

  /* ----- The circuit ----- */

  /** No request is sent before the end of any time the circuit was asked to stay open. */
  ghost predicate NoRequestWhileBlocked(history: seq<Event>) {
    forall i, j :: 0 <= i < j < |history| && history[i].Blocked? && history[j].Request? ==> history[j].time >= history[i].until
  }

  ghost predicate CircuitOk(s: State) {
    && (forall i :: 0 <= i < |s.history| && s.history[i].Blocked? ==> s.history[i].until <= s.circuit.openUntil)
    && NoRequestWhileBlocked(s.history)
  }

  lemma OpenKeepsCircuit(s: State, ms: int, at: int)
    requires CircuitOk(s)
    ensures CircuitOk(BlockedFor(s, ms, at))
  {
  }

  lemma ObserveKeepsCircuit(s: State, policies: seq<Policy>, at: int)
    requires CircuitOk(s)
    ensures CircuitOk(Observed(s, policies, at))
  {
    hide Observe, Blocks, Lowest, CountRemaining;
    ObserveOpens(s.circuit, policies, at);
    var after := Observed(s, policies, at);
    var times := Blocks(policies, s.circuit.reserveRequests, at);
    var old_ := |s.history|;
    assert forall i :: 0 <= i < |times| ==> after.history[old_ + i] == Blocked(times[i]);
    forall i | 0 <= i < |after.history| && after.history[i].Blocked?
      ensures after.history[i].until <= after.circuit.openUntil
    {
      if i >= old_ {
        assert after.history[i] == Blocked(times[i - old_]);
      }
    }
  }

  lemma RequestKeepsCircuit(s: State, c: nat, token: nat, at: int)
    requires CircuitOk(s) && !IsOpen(s.circuit, at)
    ensures CircuitOk(s.(history := s.history + [Request(c, token, at)]))
  {
  }

  lemma SameCircuit(s: State, t: State)
    requires CircuitOk(s) && t.history == s.history && t.circuit.openUntil == s.circuit.openUntil
    ensures CircuitOk(t)
  {
  }

  lemma StepKeepsCircuit(s: State, l: Label, tables: seq<string>)
    requires CircuitOk(s) && s.lane.BucketsOk() && Enabled(s, l)
    ensures CircuitOk(Next(s, l, tables))
  {
    hide CircuitOk, Rate.Happen, Rate.Acquire, Accepts, ReadOnlyWork, Observed, Waited;
    var t := Next(s, l, tables);
    if l.Resume? && !IsOpen(s.circuit, l.at) && !l.aborted {
      RequestKeepsCircuit(s, l.call, s.calls[l.call].phase.token, l.at);
      SameCircuit(s.(history := s.history + [Request(l.call, s.calls[l.call].phase.token, l.at)]), t);
    } else if l.Answer? && l.reply.Http? {
      var seen := Observed(s, l.reply.policies, l.at);
      ObserveKeepsCircuit(s, l.reply.policies, l.at);
      OpenKeepsCircuit(seen, RetryMs(l.reply.retryAfter, l.at), l.at);
      SameCircuit(if l.reply.status == 429 then BlockedFor(seen, RetryMs(l.reply.retryAfter, l.at), l.at) else seen, t);
    } else {
      SameCircuit(s, t);
    }
  }
}
