/**
 * packages/db/src/d1-rest-client.ts: calls of D1RestClient objects that share a lane and a circuit, as
 * interleaved steps. A step is what runs between two awaits.
 */
module D1Client {
  import opened Numbers
  import opened D1Circuit
  import opened D1Counters
  import opened SqlLimits
  import Rate = RateLimit
  import SqlSplit

  /* ----- Calls ----- */

  datatype Work = Batch(statements: seq<Statement>, raw: bool) | Script(sql: string)

  /** checkScript: statements within the size limit, and at least one. */
  predicate ScriptFits(sql: string) {
    && SqlSplit.SplitOf(sql).Some?
    && var texts := SqlSplit.SplitOf(sql).value;
    texts != [] && forall i :: 0 <= i < |texts| ==> ByteLength(texts[i].text) <= MAX_SQL_BYTES
  }

  predicate ReadOnlyWork(work: Work, tables: seq<string>) {
    work.Batch? && BatchVerdict(work.statements, tables) == Accepted(true)
  }

  /** What batch and executeScript let through: /raw is for read-only batches. */
  predicate Accepts(work: Work, tables: seq<string>) {
    match work
    case Batch(statements, raw) =>
      BatchVerdict(statements, tables).Accepted? && (raw ==> ReadOnlyWork(work, tables))
    case Script(sql) => ScriptFits(sql)
  }

  datatype Phase =
    | Starting
    | Waiting(token: nat, since: int, queued: bool)
    | Sending
    | BackingOff
    | Ended(outcome: Outcome)

  datatype Call = Call(
    work: Work, readOnly: bool, maxAttempts: nat, priority: Rate.Priority, attempt: nat, phase: Phase,
    sends: nat, recorded: seq<Outcome>)

  /* ----- Replies ----- */

  datatype Failure = Network | Timeout | AbortedSend

  /** The envelope as it was parsed. */
  datatype Body = Results | FailedBatch(retryable: bool) | BadResponse

  datatype Reply =
    | Lost(failure: Failure)
    | Http(status: int, policies: seq<Policy>, retryAfter: RetryAfter, body: Body)

  /* ----- The process ----- */

  datatype Event =
    | Blocked(until: int)
    | Request(call: nat, token: nat, time: int)

  /** `history` is what happened so far; `published` adds up the snapshots taken. */
  datatype State = State(
    lane: Rate.Lane, circuit: Circuit, counters: Window, published: Totals, calls: seq<Call>, history: seq<Event>,
    now: int)

  datatype Totals = Totals(sent: nat, outcomes: multiset<Outcome>)

  datatype Label =
    | Submit(work: Work, maxReadAttempts: int, priority: Rate.Priority)
    | Begin(call: nat, at: int, aborted: bool)
    | LaneWakes(at: int)
    | LeaveQueue(call: nat, at: int)
    | Resume(call: nat, at: int, aborted: bool)
    | Answer(call: nat, at: int, reply: Reply)
    | Slept(call: nat, at: int, aborted: bool)
    | TakeSnapshot(at: int)

  function Time(s: State, l: Label): int {
    if l.Submit? then s.now else l.at
  }

  predicate IsGranted(lane: Rate.Lane, token: nat) {
    exists i :: 0 <= i < |lane.log| && lane.log[i].id == token
  }

  predicate IsQueued(lane: Rate.Lane, token: nat) {
    exists i :: 0 <= i < |lane.queue| && lane.queue[i].id == token
  }

  /** Time does not go back, and a call does what its phase allows. */
  predicate Enabled(s: State, l: Label) {
    && s.now <= Time(s, l)
    && match l
       case Submit(_, _, _) => true
       case Begin(c, _, _) => c < |s.calls| && s.calls[c].phase.Starting?
       case LaneWakes(at) => Rate.Possible(s.lane, Rate.Wake(at))
       case LeaveQueue(c, _) => c < |s.calls| && s.calls[c].phase.Waiting? && IsQueued(s.lane, s.calls[c].phase.token)
       case Resume(c, _, _) => c < |s.calls| && s.calls[c].phase.Waiting? && IsGranted(s.lane, s.calls[c].phase.token)
       case Answer(c, _, _) => c < |s.calls| && s.calls[c].phase.Sending?
       case Slept(c, _, _) => c < |s.calls| && s.calls[c].phase.BackingOff?
       case TakeSnapshot(_) => true
  }

  /** The call records its outcome and is over. */
  function Finish(s: State, c: nat, outcome: Outcome): State
    requires c < |s.calls|
  {
    var call := s.calls[c];
    s.(calls := s.calls[c := call.(phase := Ended(outcome), recorded := call.recorded + [outcome])],
       counters := D1Counters.Ended(s.counters, outcome))
  }

  function MoveTo(s: State, c: nat, phase: Phase): State
    requires c < |s.calls|
  {
    s.(calls := s.calls[c := s.calls[c].(phase := phase)])
  }

  /** batch or executeScript: the checks before anything is sent. */
  function Submitted(s: State, work: Work, maxReadAttempts: int, priority: Rate.Priority, tables: seq<string>): State {
    var readOnly := ReadOnlyWork(work, tables);
    var attempts: nat := if readOnly then Max(1, maxReadAttempts) else 1;
    var call := Call(work, readOnly, attempts, priority, 1, Starting, 0, []);
    var added := s.(calls := s.calls + [call]);
    if Accepts(work, tables) then added else Finish(added, |s.calls|, Invalid)
  }

  /** assertClosed and lane.acquire. */
  function Begun(s: State, c: nat, at: int, aborted: bool): State
    requires s.lane.BucketsOk() && c < |s.calls|
  {
    if IsOpen(s.circuit, at) then Finish(s, c, CircuitOpen)
    else
      var e := Rate.Call(at, s.calls[c].priority, aborted);
      var token := s.lane.arrivals;
      var asked := s.(lane := Rate.Happen(s.lane, e));
      match Rate.Acquire(s.lane, at, s.calls[c].priority, aborted).1
      case Granted => MoveTo(asked, c, Waiting(token, at, false))
      case Queued => MoveTo(asked, c, Waiting(token, at, true))
      case Shed(_) => Finish(asked, c, ShedOutcome)
      case QueueTimeout(_) => Finish(asked, c, QueueTimeoutOutcome)
      case Aborted => Finish(asked, c, AbortedOutcome)
  }

  /** The token is there: the circuit and the signal are looked at again, then the request goes out. */
  function Resumed(s: State, c: nat, at: int, aborted: bool): State
    requires c < |s.calls| && s.calls[c].phase.Waiting?
  {
    var phase := s.calls[c].phase;
    var counted := s.(counters := Waited(s.counters, if phase.queued then at - phase.since else 0));
    if IsOpen(s.circuit, at) then Finish(counted, c, CircuitOpen)
    else if aborted then Finish(counted, c, AbortedOutcome)
    else
      var call := s.calls[c];
      counted.(counters := Sent(counted.counters),
               calls := s.calls[c := call.(phase := Sending, sends := call.sends + 1)],
               history := s.history + [Request(c, phase.token, at)])
  }

  predicate CanRetry(call: Call) {
    call.readOnly && call.attempt < call.maxAttempts
  }

  function RetryOr(s: State, c: nat, otherwise: Outcome): State
    requires c < |s.calls|
  {
    if CanRetry(s.calls[c]) then MoveTo(s.(counters := Retried(s.counters)), c, BackingOff)
    else Finish(s, c, otherwise)
  }

  /** What a call that got no usable answer ends with. */
  function GivenUp(call: Call): Outcome {
    if call.readOnly then Unavailable else UnknownOutcome
  }

  function CountRemaining(w: Window, policies: seq<Policy>): Window {
    if policies == [] then w
    else
      var before, last := CountRemaining(w, policies[..|policies| - 1]), policies[|policies| - 1];
      if last.remaining.None? then before else Remaining(before, last.remaining.value)
  }

  function Blockings(times: seq<int>): seq<Event> {
    seq(|times|, i requires 0 <= i < |times| => Blocked(times[i]))
  }

  /** The headers of any answer are looked at first. */
  function Observed(s: State, policies: seq<Policy>, at: int): State {
    s.(circuit := ObserveHeaders(s.circuit, policies, at),
       counters := CountRemaining(s.counters, policies),
       history := s.history + Blockings(Blocks(policies, s.circuit.reserveRequests, at)))
  }

  function Answered(s0: State, c: nat, at: int, reply: Reply): State
    requires c < |s0.calls|
  {
    var call := s0.calls[c];
    match reply
    case Lost(failure) =>
      if failure == Network then RetryOr(s0, c, GivenUp(call))
      else if failure == AbortedSend && call.readOnly then Finish(s0, c, AbortedOutcome)
      else Finish(s0, c, GivenUp(call))
    case Http(status, policies, retryAfter, body) =>
      var s := Observed(s0, policies, at);
      if status == 429 then
        var ms := RetryMs(retryAfter, at);
        Finish(s.(circuit := Open(s.circuit, ms, Http429, at), history := s.history + [Blocked(at + ms)]), c, Http429Outcome)
      else if status == 401 || status == 403 then Finish(s, c, Unauthorized)
      else if status == 200 || status == 400 then
        if body.Results? then Finish(s, c, OkOutcome)
        else if body.FailedBatch? && !body.retryable then Finish(s, c, StatementFailed)
        else RetryOr(s, c, GivenUp(call))
      else if status >= 500 then RetryOr(s, c, GivenUp(call))
      else Finish(s, c, Rejected)
  }

  /** The backoff is over, or the caller's signal ended it. */
  function Awake(s: State, c: nat, aborted: bool): State
    requires c < |s.calls|
  {
    if aborted then Finish(s, c, AbortedOutcome)
    else
      var call := s.calls[c];
      s.(calls := s.calls[c := call.(phase := Starting, attempt := call.attempt + 1)])
  }

  function Snapshotted(s: State, at: int): State {
    s.(counters := Empty(at),
       published := Totals(s.published.sent + s.counters.requestsSent, s.published.outcomes + s.counters.outcomes))
  }

  function Next(s: State, l: Label, tables: seq<string>): State
    requires s.lane.BucketsOk() && Enabled(s, l)
  {
    match l
    case Submit(work, attempts, priority) => Submitted(s, work, attempts, priority, tables)
    case Begin(c, at, aborted) => Begun(s, c, at, aborted).(now := at)
    case LaneWakes(at) => s.(lane := Rate.Happen(s.lane, Rate.Wake(at)), now := at)
    case LeaveQueue(c, at) =>
      Finish(s.(lane := Rate.Happen(s.lane, Rate.Leave(at, s.calls[c].phase.token))), c, AbortedOutcome).(now := at)
    case Resume(c, at, aborted) => Resumed(s, c, at, aborted).(now := at)
    case Answer(c, at, reply) => Answered(s, c, at, reply).(now := at)
    case Slept(c, at, aborted) => Awake(s, c, aborted).(now := at)
    case TakeSnapshot(at) => Snapshotted(s, at).(now := at)
  }

  /** A process with a fresh lane, circuit and counters, and no calls. */
  function Start(lane: Rate.Lane, reserveRequests: real): State {
    State(lane, NewCircuit(reserveRequests), Empty(lane.now), Totals(0, multiset{}), [], [], lane.now)
  }
}
