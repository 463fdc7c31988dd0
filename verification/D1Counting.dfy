/** packages/db/src/counters.ts: what the counters of a window say, told from what happened in it. */
module D1Counting {
  import opened Wrappers
  import opened D1Circuit
  import opened D1Counters
  import opened D1Client
  import opened D1Safety
  import opened D1Runs
  import Rate = RateLimit

  /* ----- What happens ----- */

  /** Something worth counting. */
  datatype Note = NSent | NRetry | NWait(ms: int) | NLeft(remaining: real) | NEnded(outcome: Outcome)

  function PhaseOf(s: State, c: nat): Option<Phase> {
    if c < |s.calls| then Some(s.calls[c].phase) else None
  }

  /** The call a step is about; the number of calls when it is about none. */
  function CallOf(s: State, l: Label): nat {
    match l
    case Submit(_, _, _) => |s.calls|
    case LaneWakes(_) => |s.calls|
    case TakeSnapshot(_) => |s.calls|
    case _ => l.call
  }

  function LeftOver(policies: seq<Policy>): seq<Note> {
    if policies == [] then []
    else
      LeftOver(policies[..|policies| - 1])
      + if policies[|policies| - 1].remaining.Some? then [NLeft(policies[|policies| - 1].remaining.value)] else []
  }

  /** What a step shows before the fate of its call: the headers of an answer, the time in the queue. */
  function Seen(s: State, l: Label): seq<Note> {
    match l
    case Answer(_, _, Http(_, policies, _, _)) => LeftOver(policies)
    case Resume(c, at, _) =>
      if c < |s.calls| && s.calls[c].phase.Waiting? && s.calls[c].phase.queued && at > s.calls[c].phase.since
      then [NWait(at - s.calls[c].phase.since)] else []
    case _ => []
  }

  /** What a step makes of its call: it is sent, backs off, or is over. */
  function Fate(s: State, l: Label, t: State): seq<Note> {
    match PhaseOf(t, CallOf(s, l))
    case Some(Sending) => if PhaseOf(s, CallOf(s, l)) == Some(Sending) then [] else [NSent]
    case Some(BackingOff) => if PhaseOf(s, CallOf(s, l)) == Some(BackingOff) then [] else [NRetry]
    case Some(Ended(outcome)) => if PhaseOf(s, CallOf(s, l)) == Some(Ended(outcome)) then [] else [NEnded(outcome)]
    case _ => []
  }

  /** The notes since the last snapshot, after one more step. */
  function Noted(s: State, l: Label, t: State, notes: seq<Note>): seq<Note> {
    if l.TakeSnapshot? then [] else notes + Seen(s, l) + Fate(s, l, t)
  }

  ghost function NotesOf(s: State, labels: seq<Label>, tables: seq<string>, notes: seq<Note>): seq<Note>
    requires Sound(s) && CanRun(s, labels, tables)
    decreases |labels|
  {
    if labels == [] then notes
    else
      StepIsSound(s, labels[0], tables);
      var t := Next(s, labels[0], tables);
      NotesOf(t, labels[1..], tables, Noted(s, labels[0], t, notes))
  }

  /* ----- What the counters say ----- */

  ghost predicate IsLeast(least: real, notes: seq<Note>) {
    && (exists i :: 0 <= i < |notes| && notes[i] == NLeft(least))
    && forall i :: 0 <= i < |notes| && notes[i].NLeft? ==> least <= notes[i].remaining
  }

  ghost predicate IsLongest(longest: int, notes: seq<Note>) {
    && (longest == 0 || exists i :: 0 <= i < |notes| && notes[i] == NWait(longest))
    && forall i :: 0 <= i < |notes| && notes[i].NWait? ==> 0 < notes[i].ms <= longest
  }

  function Waits(notes: seq<Note>): set<int> {
    set i | 0 <= i < |notes| && notes[i].NWait?
  }

  function WaitTotal(notes: seq<Note>): int {
    if notes == [] then 0
    else WaitTotal(notes[..|notes| - 1]) + if notes[|notes| - 1].NWait? then notes[|notes| - 1].ms else 0
  }

  /** The window counts these notes: requests, retries and outcomes, waits, and the least that was left. */
  ghost predicate Tallies(w: Window, notes: seq<Note>) {
    && w.requestsSent == multiset(notes)[NSent]
    && w.readRetries == multiset(notes)[NRetry]
    && (forall outcome :: w.outcomes[outcome] == multiset(notes)[NEnded(outcome)])
    && w.http429 == multiset(notes)[NEnded(Http429Outcome)]
    && w.bucketWaits == |Waits(notes)| && w.bucketWaitMsTotal == WaitTotal(notes) && IsLongest(w.bucketWaitMsMax, notes)
    && (if forall i :: 0 <= i < |notes| ==> !notes[i].NLeft? then w.remainingMin == -1.0 else IsLeast(w.remainingMin, notes))
  }

  /** What is left is never negative, as the headers are parsed. */
  predicate LeftsOk(notes: seq<Note>) {
    forall i :: 0 <= i < |notes| && notes[i].NLeft? ==> notes[i].remaining >= 0.0
  }

  predicate HeadersOk(l: Label) {
    l.Answer? && l.reply.Http? ==>
      forall i :: 0 <= i < |l.reply.policies| && l.reply.policies[i].remaining.Some? ==> l.reply.policies[i].remaining.value >= 0.0
  }

  /* ----- One note ----- */

  lemma OneMore(notes: seq<Note>, note: Note)
    ensures multiset(notes + [note]) == multiset(notes) + multiset{note}
    ensures WaitTotal(notes + [note]) == WaitTotal(notes) + if note.NWait? then note.ms else 0
    ensures |Waits(notes + [note])| == |Waits(notes)| + if note.NWait? then 1 else 0
  {
    var more := notes + [note];
    assert more[..|notes|] == notes;
    assert Waits(more) == if note.NWait? then Waits(notes) + {|notes|} else Waits(notes);
  }

  lemma LongestStays(longest: int, notes: seq<Note>, note: Note)
    requires IsLongest(longest, notes) && !note.NWait?
    ensures IsLongest(longest, notes + [note])
  {
    var more := notes + [note];
    if longest != 0 {
      var i :| 0 <= i < |notes| && notes[i] == NWait(longest);
      assert more[i] == notes[i];
    }
  }

  lemma LeastStays(w: Window, notes: seq<Note>, note: Note)
    requires Tallies(w, notes) && !note.NLeft?
    ensures var more := notes + [note];
            if forall i :: 0 <= i < |more| ==> !more[i].NLeft? then w.remainingMin == -1.0 else IsLeast(w.remainingMin, more)
  {
    var more := notes + [note];
    assert forall i :: 0 <= i < |notes| ==> more[i] == notes[i];
    if i :| 0 <= i < |more| && more[i].NLeft? {
      assert notes[i].NLeft?;
      var k :| 0 <= k < |notes| && notes[k] == NLeft(w.remainingMin);
      assert more[k] == notes[k];
    }
  }

  lemma SentTallies(w: Window, notes: seq<Note>)
    requires Tallies(w, notes)
    ensures Tallies(Sent(w), notes + [NSent])
  {
    hide IsLongest, IsLeast, WaitTotal, Waits;
    OneMore(notes, NSent);
    LongestStays(w.bucketWaitMsMax, notes, NSent);
    LeastStays(w, notes, NSent);
  }

  lemma RetriedTallies(w: Window, notes: seq<Note>)
    requires Tallies(w, notes)
    ensures Tallies(Retried(w), notes + [NRetry])
  {
    hide IsLongest, IsLeast, WaitTotal, Waits;
    OneMore(notes, NRetry);
    LongestStays(w.bucketWaitMsMax, notes, NRetry);
    LeastStays(w, notes, NRetry);
  }

  lemma EndedTallies(w: Window, notes: seq<Note>, outcome: Outcome)
    requires Tallies(w, notes)
    ensures Tallies(D1Counters.Ended(w, outcome), notes + [NEnded(outcome)])
  {
    hide IsLongest, IsLeast, WaitTotal, Waits;
    OneMore(notes, NEnded(outcome));
    LongestStays(w.bucketWaitMsMax, notes, NEnded(outcome));
    LeastStays(w, notes, NEnded(outcome));
  }

  lemma WaitedTallies(w: Window, notes: seq<Note>, ms: int)
    requires Tallies(w, notes) && ms > 0
    ensures Tallies(Waited(w, ms), notes + [NWait(ms)])
  {
    hide IsLeast, WaitTotal, Waits;
    OneMore(notes, NWait(ms));
    LeastStays(w, notes, NWait(ms));
    var more := notes + [NWait(ms)];
    assert more[|notes|] == NWait(ms);
    if w.bucketWaitMsMax != 0 {
      var i :| 0 <= i < |notes| && notes[i] == NWait(w.bucketWaitMsMax);
      assert more[i] == notes[i];
    }
  }

  lemma RemainingTallies(w: Window, notes: seq<Note>, remaining: real)
    requires Tallies(w, notes) && LeftsOk(notes) && remaining >= 0.0
    ensures Tallies(Remaining(w, remaining), notes + [NLeft(remaining)]) && LeftsOk(notes + [NLeft(remaining)])
  {
    hide IsLongest, WaitTotal, Waits;
    OneMore(notes, NLeft(remaining));
    LongestStays(w.bucketWaitMsMax, notes, NLeft(remaining));
    var more := notes + [NLeft(remaining)];
    assert more[|notes|] == NLeft(remaining);
    if i :| 0 <= i < |notes| && notes[i].NLeft? {
      var k :| 0 <= k < |notes| && notes[k] == NLeft(w.remainingMin);
      assert more[k] == notes[k];
    }
  }

  lemma {:induction false} HeadersTally(w: Window, notes: seq<Note>, policies: seq<Policy>)
    requires Tallies(w, notes) && LeftsOk(notes)
    requires forall i :: 0 <= i < |policies| && policies[i].remaining.Some? ==> policies[i].remaining.value >= 0.0
    ensures Tallies(CountRemaining(w, policies), notes + LeftOver(policies)) && LeftsOk(notes + LeftOver(policies))
  {
    hide Tallies, LeftsOk, Remaining;
    if policies == [] {
      assert notes + [] == notes;
    } else {
      var n := |policies| - 1;
      HeadersTally(w, notes, policies[..n]);
      if policies[n].remaining.Some? {
        RemainingTallies(CountRemaining(w, policies[..n]), notes + LeftOver(policies[..n]), policies[n].remaining.value);
        assert notes + LeftOver(policies) == notes + LeftOver(policies[..n]) + [NLeft(policies[n].remaining.value)];
      } else {
        assert LeftOver(policies) == LeftOver(policies[..n]);
      }
    }
  }

  /* ----- One step ----- */

  lemma EmptyTallies(at: int)
    ensures Tallies(Empty(at), []) && LeftsOk([])
  {
  }

  lemma NothingMore(w: Window, notes: seq<Note>)
    requires Tallies(w, notes) && LeftsOk(notes)
    ensures Tallies(w, notes + []) && LeftsOk(notes + [])
  {
    assert notes + [] == notes;
  }

  /** The call is over: the note says with what. */
  lemma FinishTallies(s: State, c: nat, outcome: Outcome, notes: seq<Note>)
    requires Tallies(s.counters, notes) && LeftsOk(notes) && c < |s.calls|
    ensures var t := Finish(s, c, outcome);
            && PhaseOf(t, c) == Some(Ended(outcome))
            && Tallies(t.counters, notes + [NEnded(outcome)]) && LeftsOk(notes + [NEnded(outcome)])
  {
    hide Tallies;
    EndedTallies(s.counters, notes, outcome);
  }

  lemma RetryTallies(s: State, c: nat, otherwise: Outcome, notes: seq<Note>)
    requires Tallies(s.counters, notes) && LeftsOk(notes) && c < |s.calls|
    ensures var t := RetryOr(s, c, otherwise);
            if CanRetry(s.calls[c])
            then PhaseOf(t, c) == Some(BackingOff) && Tallies(t.counters, notes + [NRetry]) && LeftsOk(notes + [NRetry])
            else && PhaseOf(t, c) == Some(Ended(otherwise))
                 && Tallies(t.counters, notes + [NEnded(otherwise)]) && LeftsOk(notes + [NEnded(otherwise)])
  {
    hide Tallies;
    RetriedTallies(s.counters, notes);
    FinishTallies(s, c, otherwise, notes);
  }

  /** What an answer makes of its call, with the note of it. */
  ghost predicate Counted(t: State, c: nat, notes: seq<Note>) {
    match PhaseOf(t, c)
    case Some(BackingOff) => Tallies(t.counters, notes + [NRetry]) && LeftsOk(notes + [NRetry])
    case Some(Ended(outcome)) => Tallies(t.counters, notes + [NEnded(outcome)]) && LeftsOk(notes + [NEnded(outcome)])
    case _ => false
  }

  lemma FinishCounted(s: State, c: nat, outcome: Outcome, notes: seq<Note>)
    requires Tallies(s.counters, notes) && LeftsOk(notes) && c < |s.calls|
    ensures Counted(Finish(s, c, outcome), c, notes) && Counted(RetryOr(s, c, outcome), c, notes)
  {
    hide Tallies;
    FinishTallies(s, c, outcome, notes);
    RetryTallies(s, c, outcome, notes);
  }

  lemma AnswerTallies(s: State, c: nat, at: int, reply: Reply, notes: seq<Note>)
    requires Tallies(s.counters, notes) && LeftsOk(notes) && c < |s.calls| && HeadersOk(Answer(c, at, reply))
    ensures Counted(Answered(s, c, at, reply), c, notes + Seen(s, Answer(c, at, reply)))
  {
    hide Tallies, LeftsOk, Finish, RetryOr, Counted, GivenUp, ObserveHeaders, Blockings, CountRemaining, LeftOver, RetryMs;
    if reply.Lost? {
      NothingMore(s.counters, notes);
      forall outcome
        ensures Counted(Finish(s, c, outcome), c, notes + []) && Counted(RetryOr(s, c, outcome), c, notes + [])
      {
        FinishCounted(s, c, outcome, notes + []);
      }
    } else {
      var seen, all := Observed(s, reply.policies, at), notes + LeftOver(reply.policies);
      HeadersTally(s.counters, notes, reply.policies);
      forall outcome
        ensures Counted(Finish(seen, c, outcome), c, all) && Counted(RetryOr(seen, c, outcome), c, all)
      {
        FinishCounted(seen, c, outcome, all);
      }
      var ms := RetryMs(reply.retryAfter, at);
      FinishCounted(seen.(circuit := Open(seen.circuit, ms, Http429, at), history := seen.history + [Blocked(at + ms)]), c,
                    Http429Outcome, all);
    }
  }

  lemma WaitTallies(w: Window, notes: seq<Note>, phase: Phase, at: int)
    requires Tallies(w, notes) && LeftsOk(notes) && phase.Waiting?
    ensures var waited := if phase.queued && at > phase.since then [NWait(at - phase.since)] else [];
            && Tallies(Waited(w, if phase.queued then at - phase.since else 0), notes + waited) && LeftsOk(notes + waited)
  {
    hide Tallies;
    NothingMore(w, notes);
    if phase.queued && at > phase.since {
      WaitedTallies(w, notes, at - phase.since);
    }
  }

  lemma ResumeTallies(s: State, c: nat, at: int, aborted: bool, notes: seq<Note>)
    requires Tallies(s.counters, notes) && LeftsOk(notes) && c < |s.calls| && s.calls[c].phase.Waiting?
    ensures var l, t := Resume(c, at, aborted), Resumed(s, c, at, aborted);
            Tallies(t.counters, notes + Seen(s, l) + Fate(s, l, t)) && LeftsOk(notes + Seen(s, l) + Fate(s, l, t))
  {
    hide Tallies, Waited;
    var l := Resume(c, at, aborted);
    var all := notes + Seen(s, l);
    var phase := s.calls[c].phase;
    WaitTallies(s.counters, notes, phase, at);
    var counted := s.(counters := Waited(s.counters, if phase.queued then at - phase.since else 0));
    SentTallies(counted.counters, all);
    FinishTallies(counted, c, CircuitOpen, all);
    FinishTallies(counted, c, AbortedOutcome, all);
  }

  /** What an answer makes of its call is its fate. */
  lemma AnswerStepTallies(s: State, c: nat, at: int, reply: Reply, tables: seq<string>, notes: seq<Note>)
    requires s.lane.BucketsOk() && Enabled(s, Answer(c, at, reply)) && Tallies(s.counters, notes) && LeftsOk(notes)
    requires HeadersOk(Answer(c, at, reply))
    ensures var l := Answer(c, at, reply);
            var t := Next(s, l, tables);
            Tallies(t.counters, notes + Seen(s, l) + Fate(s, l, t)) && LeftsOk(notes + Seen(s, l) + Fate(s, l, t))
  {
    hide Tallies, LeftsOk, HeadersOk, Answered, Seen;
    AnswerTallies(s, c, at, reply, notes);
  }

  lemma ResumeStepTallies(s: State, c: nat, at: int, aborted: bool, tables: seq<string>, notes: seq<Note>)
    requires s.lane.BucketsOk() && Enabled(s, Resume(c, at, aborted)) && Tallies(s.counters, notes) && LeftsOk(notes)
    ensures var l := Resume(c, at, aborted);
            var t := Next(s, l, tables);
            Tallies(t.counters, notes + Seen(s, l) + Fate(s, l, t)) && LeftsOk(notes + Seen(s, l) + Fate(s, l, t))
  {
    hide Tallies, LeftsOk, Resumed, Seen;
    ResumeTallies(s, c, at, aborted, notes);
    var l := Resume(c, at, aborted);
    assert Fate(s, l, Next(s, l, tables)) == Fate(s, l, Resumed(s, c, at, aborted));
  }

  lemma StepTallies(s: State, l: Label, tables: seq<string>, notes: seq<Note>)
    requires s.lane.BucketsOk() && Enabled(s, l) && Tallies(s.counters, notes) && LeftsOk(notes) && HeadersOk(l)
    ensures var t := Next(s, l, tables);
            Tallies(t.counters, Noted(s, l, t, notes)) && LeftsOk(Noted(s, l, t, notes))
  {
    match l {
      case TakeSnapshot(at) => EmptyTallies(at);
      case LaneWakes(_) =>
        hide Tallies, LeftsOk, Rate.Happen;
        Quiet(s, l, Next(s, l, tables), notes);
      case Answer(c, at, reply) =>
        hide Tallies, LeftsOk, HeadersOk, Next, Enabled, Seen, Fate;
        AnswerStepTallies(s, c, at, reply, tables, notes);
      case Resume(c, at, aborted) =>
        hide Tallies, LeftsOk, Next, Enabled, Seen, Fate;
        ResumeStepTallies(s, c, at, aborted, tables, notes);
      case _ =>
        hide Tallies, LeftsOk, Next, Enabled, Noted;
        OtherTallies(s, l, tables, notes);
    }
  }

  lemma Quiet(s: State, l: Label, t: State, notes: seq<Note>)
    requires Tallies(s.counters, notes) && LeftsOk(notes) && t.counters == s.counters && Seen(s, l) == [] && Fate(s, l, t) == []
    ensures Tallies(t.counters, notes + Seen(s, l) + Fate(s, l, t)) && LeftsOk(notes + Seen(s, l) + Fate(s, l, t))
  {
    hide Tallies, Fate, Seen;
    assert notes + [] + [] == notes;
  }

  lemma Over(s: State, l: Label, t: State, notes: seq<Note>, outcome: Outcome)
    requires Tallies(s.counters, notes) && LeftsOk(notes) && t.counters == D1Counters.Ended(s.counters, outcome)
    requires Seen(s, l) == [] && Fate(s, l, t) == [NEnded(outcome)]
    ensures Tallies(t.counters, notes + Seen(s, l) + Fate(s, l, t)) && LeftsOk(notes + Seen(s, l) + Fate(s, l, t))
  {
    hide Tallies, Fate, Seen;
    EndedTallies(s.counters, notes, outcome);
    assert notes + [] + [NEnded(outcome)] == notes + [NEnded(outcome)];
  }

  lemma OtherTallies(s: State, l: Label, tables: seq<string>, notes: seq<Note>)
    requires s.lane.BucketsOk() && Enabled(s, l) && Tallies(s.counters, notes) && LeftsOk(notes)
    requires l.Submit? || l.Begin? || l.LeaveQueue? || l.Slept?
    ensures var t := Next(s, l, tables);
            Tallies(t.counters, Noted(s, l, t, notes)) && LeftsOk(Noted(s, l, t, notes))
  {
    hide Tallies, LeftsOk, Accepts, ReadOnlyWork, Rate.Happen, Rate.Acquire, D1Counters.Ended;
    var t := Next(s, l, tables);
    var c := CallOf(s, l);
    if t.calls[c].phase.Ended? {
      Over(s, l, t, notes, t.calls[c].phase.outcome);
    } else {
      Quiet(s, l, t, notes);
    }
  }

  /* ----- Runs ----- */

  lemma {:induction false} RunTallies(s: State, labels: seq<Label>, tables: seq<string>, notes: seq<Note>)
    requires Sound(s) && CanRun(s, labels, tables) && Tallies(s.counters, notes) && LeftsOk(notes)
    requires forall i :: 0 <= i < |labels| ==> HeadersOk(labels[i])
    ensures Tallies(RunAll(s, labels, tables).counters, NotesOf(s, labels, tables, notes))
    decreases |labels|
  {
    hide Next, Enabled, Tallies, LeftsOk, HeadersOk, Noted;
    if labels != [] {
      StepIsSound(s, labels[0], tables);
      StepTallies(s, labels[0], tables, notes);
      var t := Next(s, labels[0], tables);
      RunTallies(t, labels[1..], tables, Noted(s, labels[0], t, notes));
    }
  }

  /**
   * In every run the counters are those of what happened since the last snapshot: requests sent, retries, outcomes,
   * the time calls spent in the queue, and the least that an answer said was left.
   */
  lemma WindowTallies(p: Process, labels: seq<Label>)
    requires p.Ok() && p.Runs(labels) && forall i :: 0 <= i < |labels| ==> HeadersOk(labels[i])
    ensures Sound(p.First()) && Tallies(p.Last(labels).counters, NotesOf(p.First(), labels, p.tables, []))
  {
    hide CanRun, RunAll, Tallies, HeadersOk;
    EmptyTallies(p.First().now);
    FirstTallies(p);
    RunTallies(p.First(), labels, p.tables, []);
  }

  lemma FirstTallies(p: Process)
    requires p.Ok()
    ensures Sound(p.First()) && p.First().counters == Empty(p.First().now)
  {
  }

  /* ----- What the circuit remembers ----- */

  ghost predicate IsLowest(low: real, policies: seq<Policy>) {
    && (exists i :: 0 <= i < |policies| && policies[i].remaining == Some(low))
    && forall i :: 0 <= i < |policies| && policies[i].remaining.Some? ==> low <= policies[i].remaining.value
  }

  lemma {:induction false} LowestIs(policies: seq<Policy>)
    ensures if Lowest(policies).None? then forall i :: 0 <= i < |policies| ==> policies[i].remaining.None?
            else IsLowest(Lowest(policies).value, policies)
  {
    if policies != [] {
      var n := |policies| - 1;
      LowestIs(policies[..n]);
      assert forall i :: 0 <= i < n ==> policies[..n][i] == policies[i];
      if Lowest(policies[..n]).Some? {
        var i :| 0 <= i < n && policies[..n][i].remaining == Lowest(policies[..n]);
        assert policies[i].remaining == Lowest(policies[..n]);
      }
    }
  }

  /** After any headers the circuit remembers the least they said was left, or what it remembered before. */
  lemma RemembersLowest(c: Circuit, policies: seq<Policy>, now: int)
    ensures var after := ObserveHeaders(c, policies, now);
            if exists i :: 0 <= i < |policies| && policies[i].remaining.Some?
            then after.lastRemaining.Some? && IsLowest(after.lastRemaining.value, policies)
            else after.lastRemaining == c.lastRemaining
  {
    LowestIs(policies);
    ObserveKeepsLast(c, policies, now);
  }

  lemma {:induction false} ObserveKeepsLast(c: Circuit, policies: seq<Policy>, now: int)
    ensures Observe(c, policies, now).lastRemaining == c.lastRemaining
  {
    if policies != [] {
      ObserveKeepsLast(c, policies[..|policies| - 1], now);
    }
  }
}
