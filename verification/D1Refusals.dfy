/**
 * packages/db/src/d1-rest-client.ts and counters.ts: what the outcomes say that are counted as never having
 * reached D1.
 */
module D1Refusals {
  import opened Wrappers
  import opened Numbers
  import opened D1Circuit
  import opened D1Counters
  import opened D1Client
  import opened D1Safety
  import opened D1Runs
  import opened RateQueue
  import SqlLimits
  import Rate = RateLimit

  /* ----- The calls are those submitted ----- */

  datatype Submission = Submission(work: Work, maxReadAttempts: int)

  function SubmissionOf(l: Label): seq<Submission> {
    if l.Submit? then [Submission(l.work, l.maxReadAttempts)] else []
  }

  /** What was submitted in a run, in order. */
  function Submits(labels: seq<Label>): seq<Submission> {
    if labels == [] then [] else SubmissionOf(labels[0]) + Submits(labels[1..])
  }

  /** The call that a submission makes, as far as it never changes. */
  predicate IsCallOf(call: Call, m: Submission, tables: seq<string>) {
    && call.work == m.work && call.readOnly == ReadOnlyWork(m.work, tables)
    && call.maxAttempts == if call.readOnly then Max(1, m.maxReadAttempts) else 1
  }

  predicate SameCall(a: Call, b: Call) {
    a.work == b.work && a.readOnly == b.readOnly && a.maxAttempts == b.maxAttempts
  }

  /** No step changes what a call was submitted as; a submission adds one. */
  lemma NextKeepsCalls(s: State, l: Label, tables: seq<string>)
    requires s.lane.BucketsOk() && Enabled(s, l)
    ensures var t := Next(s, l, tables);
            && |t.calls| == |s.calls| + |SubmissionOf(l)|
            && (forall c :: 0 <= c < |s.calls| ==> SameCall(s.calls[c], t.calls[c]))
            && (l.Submit? ==> IsCallOf(t.calls[|s.calls|], SubmissionOf(l)[0], tables))
  {
    hide Rate.Happen, Rate.Acquire, Accepts, ReadOnlyWork, Answered;
    if l.Answer? {
      AnswerKeepsCall(s, l.call, l.at, l.reply);
    }
  }

  lemma AnswerKeepsCall(s: State, c: nat, at: int, reply: Reply)
    requires c < |s.calls|
    ensures var t := Answered(s, c, at, reply);
            |t.calls| == |s.calls| && forall i :: 0 <= i < |s.calls| ==> SameCall(s.calls[i], t.calls[i])
  {
    hide Observed;
    if reply.Http? {
      SeenCalls(s, reply.policies, at);
    }
  }

  lemma {:induction false} CallsAreSubmits(s: State, labels: seq<Label>, tables: seq<string>)
    requires Sound(s) && CanRun(s, labels, tables)
    ensures var t := RunAll(s, labels, tables);
            && |t.calls| == |s.calls| + |Submits(labels)|
            && (forall c :: 0 <= c < |s.calls| ==> SameCall(s.calls[c], t.calls[c]))
            && forall i :: 0 <= i < |Submits(labels)| ==> IsCallOf(t.calls[|s.calls| + i], Submits(labels)[i], tables)
    decreases |labels|
  {
    hide Next, Enabled, ReadOnlyWork;
    if labels != [] {
      var next := Next(s, labels[0], tables);
      StepIsSound(s, labels[0], tables);
      NextKeepsCalls(s, labels[0], tables);
      CallsAreSubmits(next, labels[1..], tables);
      var t := RunAll(s, labels, tables);
      forall i | 0 <= i < |Submits(labels)|
        ensures IsCallOf(t.calls[|s.calls| + i], Submits(labels)[i], tables)
      {
        if i < |SubmissionOf(labels[0])| {
          assert SameCall(next.calls[|s.calls|], t.calls[|s.calls|]);
        } else {
          assert Submits(labels)[i] == Submits(labels[1..])[i - |SubmissionOf(labels[0])|];
        }
      }
    }
  }

  /* ----- Refused calls ----- */

  predicate EndsRefused(s: State, c: nat) {
    c < |s.calls| && s.calls[c].phase.Ended? && s.calls[c].phase.outcome in REFUSED
  }

  /** A work that is tried once never reached D1 when it was refused. */
  lemma RefusedUnsent(p: Process, labels: seq<Label>, c: nat)
    requires p.Ok() && p.Runs(labels) && c < |Submits(labels)| && EndsRefused(p.Last(labels), c)
    requires !ReadOnlyWork(Submits(labels)[c].work, p.tables) || Submits(labels)[c].maxReadAttempts <= 1
    ensures RequestsOf(p.Last(labels).history, c) == 0
  {
    hide CanRun, RunAll, ReadOnlyWork, Accepts;
    LastInv(p, labels, p.start);
    CallsAreSubmits(p.First(), labels, p.tables);
    assert CallOk(p.Last(labels).calls[c], p.tables);
    assert IsCallOf(p.Last(labels).calls[c], Submits(labels)[c], p.tables);
  }

  lemma RunStep(s: State, l: Label, rest: seq<Label>, tables: seq<string>)
    requires Sound(s) && Enabled(s, l) && Sound(Next(s, l, tables)) && CanRun(Next(s, l, tables), rest, tables)
    ensures CanRun(s, [l] + rest, tables) && RunAll(s, [l] + rest, tables) == RunAll(Next(s, l, tables), rest, tables)
  {
    hide Next, Enabled;
    assert ([l] + rest)[1..] == rest;
  }

  lemma SubmitsPush(l: Label, rest: seq<Label>)
    ensures Submits([l] + rest) == if l.Submit? then SubmissionOf(l) + Submits(rest) else Submits(rest)
  {
    assert ([l] + rest)[1..] == rest;
  }

  /** A call is submitted, gets a token at once and sends its request. */
  function SendLabels(work: Work, attempts: int, c: nat, at: int, rest: seq<Label>): seq<Label> {
    [Submit(work, attempts, Rate.Authenticated)] + ([Begin(c, at, false)] + ([Resume(c, at, false)] + rest))
  }

  /** The state after that. */
  ghost predicate IsSent(s: State, work: Work, attempts: int, at: int, t: State, tables: seq<string>) {
    var c := |s.calls|;
    && |t.calls| == c + 1 && t.calls[..c] == s.calls && t.calls[c].phase.Sending?
    && t.calls[c].attempt == 1 && IsCallOf(t.calls[c], Submission(work, attempts), tables)
    && t.circuit == s.circuit && t.lane.queue == [] && t.lane.bucket.at == at && t.now == at && Sound(t)
    && t.lane.bucket.capacity >= 1.0
  }

  lemma SendsAtOnce(s: State, work: Work, attempts: int, at: int, tables: seq<string>) returns (t: State)
    requires Sound(s) && s.now <= at && !IsOpen(s.circuit, at) && Accepts(work, tables)
    requires s.lane.queue == [] && at >= s.lane.bucket.at + Rate.MsUntil(s.lane.bucket, 1)
    ensures IsSent(s, work, attempts, at, t, tables)
    ensures forall rest :: CanRun(t, rest, tables) ==>
              CanRun(s, SendLabels(work, attempts, |s.calls|, at, rest), tables)
              && RunAll(s, SendLabels(work, attempts, |s.calls|, at, rest), tables) == RunAll(t, rest, tables)
  {
    hide Accepts, ReadOnlyWork, CanRun, RunAll, Rate.MsUntil, Rate.Refill;
    var c := |s.calls|;
    var submit, begin, resume := Submit(work, attempts, Rate.Authenticated), Begin(c, at, false), Resume(c, at, false);
    var s1 := Next(s, submit, tables);
    GetsToken(s1.lane, at);
    var s2 := Next(s1, begin, tables);
    StepIsSound(s1, begin, tables);
    assert IsGranted(s2.lane, s1.lane.arrivals);
    t := Next(s2, resume, tables);
    forall rest | CanRun(t, rest, tables)
      ensures CanRun(s, SendLabels(work, attempts, c, at, rest), tables)
      ensures RunAll(s, SendLabels(work, attempts, c, at, rest), tables) == RunAll(t, rest, tables)
    {
      RunStep(s2, resume, rest, tables);
      RunStep(s1, begin, [resume] + rest, tables);
      RunStep(s, submit, [begin] + ([resume] + rest), tables);
    }
  }

  lemma SendSubmits(work: Work, attempts: int, c: nat, at: int, rest: seq<Label>)
    ensures Submits(SendLabels(work, attempts, c, at, rest)) == [Submission(work, attempts)] + Submits(rest)
  {
    hide Submits;
    SubmitsPush(Resume(c, at, false), rest);
    SubmitsPush(Begin(c, at, false), [Resume(c, at, false)] + rest);
    SubmitsPush(Submit(work, attempts, Rate.Authenticated), [Begin(c, at, false)] + ([Resume(c, at, false)] + rest));
  }

  lemma GetsToken(l: Rate.Lane, at: int)
    requires l.BucketsOk() && l.now <= at && l.queue == [] && at >= l.bucket.at + Rate.MsUntil(l.bucket, 1)
    ensures var asked := Rate.Happen(l, Rate.Call(at, Rate.Authenticated, false));
            && Rate.Acquire(l, at, Rate.Authenticated, false).1 == Rate.Granted
            && asked.queue == [] && asked.bucket.at == at && asked.bucket.capacity == l.bucket.capacity
            && asked.log == l.log + [Rate.Grant(at, l.arrivals, false, None)] && asked.arrivals == l.arrivals + 1
            && IsGranted(asked, l.arrivals)
  {
    hide Rate.MsUntil;
    EstimateIsExact(l.bucket, 1, at);
    var asked := Rate.Happen(l, Rate.Call(at, Rate.Authenticated, false));
    assert asked.log[|l.log|].id == l.arrivals;
  }

  /** The answers: a server error to the first call, then 429 to the second. */
  const SERVER_ERROR := Http(503, [], Missing, BadResponse)
  const TOO_MANY := Http(429, [], Missing, BadResponse)

  lemma ErrorBacksOff(s: State, at: int)
    requires |s.calls| == 1 && s.calls[0].phase.Sending? && CanRetry(s.calls[0])
    ensures var t := Answered(s, 0, at, SERVER_ERROR);
            && t.calls == [s.calls[0].(phase := BackingOff)] && t.lane == s.lane && t.circuit == s.circuit
  {
  }

  lemma TooManyOpens(s: State, at: int)
    requires |s.calls| == 2 && s.calls[1].phase.Sending?
    ensures var t := Answered(s, 1, at, TOO_MANY);
            |t.calls| == 2 && t.calls[0] == s.calls[0] && t.lane == s.lane && IsOpen(t.circuit, at)
  {
  }

  lemma BegunWhileOpen(s: State, at: int)
    requires Sound(s) && s.calls != [] && IsOpen(s.circuit, at)
    ensures Begun(s, 0, at, false) == Finish(s, 0, CircuitOpen)
  {
  }

  lemma NothingRuns(s: State, tables: seq<string>)
    requires Sound(s)
    ensures CanRun(s, [], tables) && RunAll(s, [], tables) == s && Submits([]) == []
  {
  }

  /** From the moment the second call has sent: its 429 opens the circuit, and the first call's retry is refused. */
  lemma RetryMeetsOpenCircuit(s: State, at: int, tables: seq<string>) returns (labels: seq<Label>)
    requires Sound(s) && s.now == at && |s.calls| == 2 && s.calls[0].phase.BackingOff? && s.calls[1].phase.Sending?
    ensures CanRun(s, labels, tables) && Submits(labels) == []
    ensures var t := RunAll(s, labels, tables);
            |t.calls| == 2 && t.calls[0] == s.calls[0].(phase := Ended(CircuitOpen), attempt := s.calls[0].attempt + 1,
                                                        recorded := s.calls[0].recorded + [CircuitOpen])
  {
    hide Answered, CanRun, RunAll, Submits, Begun;
    var answer, slept, begin := Answer(1, at, TOO_MANY), Slept(0, at, false), Begin(0, at, false);
    var s1 := Next(s, answer, tables);
    TooManyOpens(s, at);
    StepIsSound(s, answer, tables);
    var s2 := Next(s1, slept, tables);
    StepIsSound(s1, slept, tables);
    BegunWhileOpen(s2, at);
    StepIsSound(s2, begin, tables);
    labels := [answer] + ([slept] + ([begin] + []));
    NothingRuns(Next(s2, begin, tables), tables);
    RunStep(s2, begin, [], tables);
    RunStep(s1, slept, [begin] + [], tables);
    RunStep(s, answer, [slept] + ([begin] + []), tables);
    SubmitsPush(begin, []);
    SubmitsPush(slept, [begin] + []);
    SubmitsPush(answer, [slept] + ([begin] + []));
  }

  /**
   * A refused call may have reached D1: while a read waits to try again after a server error, a 429 to
   * another call opens the circuit, which refuses the second attempt.
   */
  lemma RefusedAfterSending(p: Process, work: Work, attempts: int) returns (labels: seq<Label>)
    requires p.Ok() && attempts >= 2 && ReadOnlyWork(work, p.tables)
    ensures p.Runs(labels) && |p.Last(labels).calls| == 2
    ensures Submits(labels) == [Submission(work, attempts), Submission(work, attempts)]
    ensures p.Last(labels).calls[0].phase == Ended(CircuitOpen) && RequestsOf(p.Last(labels).history, 0) == 1
  {
    hide CanRun, RunAll, Accepts, ReadOnlyWork, Answered, Rate.MsUntil, Submits;
    ReadsAreAccepted(work, p.tables);
    var s := p.First();
    FullAtOnce(p);
    var first := Max(0, p.start);
    var sent := SendsAtOnce(s, work, attempts, first, p.tables);
    var answer := Answer(0, first, SERVER_ERROR);
    var waiting := Next(sent, answer, p.tables);
    ErrorBacksOff(sent, first);
    StepIsSound(sent, answer, p.tables);
    var second := Max(first, waiting.lane.bucket.at + Rate.MsUntil(waiting.lane.bucket, 1));
    var other := SendsAtOnce(waiting, work, attempts, second, p.tables);
    assert other.calls[0] == other.calls[..1][0] == waiting.calls[0];
    var tail := RetryMeetsOpenCircuit(other, second, p.tables);
    var later := SendLabels(work, attempts, 1, second, tail);
    RunStep(sent, answer, later, p.tables);
    labels := SendLabels(work, attempts, 0, first, [answer] + later);
    SendSubmits(work, attempts, 1, second, tail);
    SubmitsPush(answer, later);
    SendSubmits(work, attempts, 0, first, [answer] + later);
    LastInv(p, labels, p.start);
    assert CallOk(p.Last(labels).calls[0], p.tables);
  }

  lemma FullAtOnce(p: Process)
    requires p.Ok()
    ensures Rate.MsUntil(p.Lane().bucket, 1) == 0
  {
  }

  /**
   * Whether a refused call reached D1 can be told beforehand: in every run no call with this work is refused
   * after it was sent exactly when the work is no read, or one attempt is all it gets.
   */
  lemma RefusalTells(p: Process, work: Work, attempts: int)
    requires p.Ok()
    ensures (forall labels: seq<Label>, c: nat ::
               p.Runs(labels) && c < |Submits(labels)| && Submits(labels)[c] == Submission(work, attempts)
               && EndsRefused(p.Last(labels), c) ==>
                 RequestsOf(p.Last(labels).history, c) == 0)
            <==> !ReadOnlyWork(work, p.tables) || attempts <= 1
  {
    hide CanRun, RunAll, ReadOnlyWork, Accepts, RequestsOf, EndsRefused;
    if !ReadOnlyWork(work, p.tables) || attempts <= 1 {
      forall labels: seq<Label>, c: nat |
        p.Runs(labels) && c < |Submits(labels)| && Submits(labels)[c] == Submission(work, attempts)
        && EndsRefused(p.Last(labels), c)
        ensures RequestsOf(p.Last(labels).history, c) == 0
      {
        RefusedUnsent(p, labels, c);
      }
    } else {
      var labels := RefusedAfterSending(p, work, attempts);
      EndedRefused(p.Last(labels));
    }
  }

  lemma ReadsAreAccepted(work: Work, tables: seq<string>)
    requires ReadOnlyWork(work, tables)
    ensures Accepts(work, tables)
  {
    hide SqlLimits.BatchVerdict;
  }

  lemma EndedRefused(s: State)
    requires s.calls != [] && s.calls[0].phase == Ended(CircuitOpen)
    ensures EndsRefused(s, 0)
  {
  }
}
