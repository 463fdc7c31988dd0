/** packages/db/src/d1-rest-client.ts and rate-limit.ts: how many requests go out in any stretch of time. */
module D1Budget {
  import opened D1Client
  import opened D1Safety
  import opened D1Tokens
  import opened D1Runs
  import Rate = RateLimit
  import RateWindows

  /* ----- Requests and grants of a window ----- */

  predicate IsRequestIn(e: Event, from: int, to: int) {
    e.Request? && from <= e.time <= to
  }

  /** Requests sent from `from` to `to`. */
  function RequestsIn(history: seq<Event>, from: int, to: int): nat {
    if history == [] then 0
    else RequestsIn(history[..|history| - 1], from, to) + if IsRequestIn(history[|history| - 1], from, to) then 1 else 0
  }

  /** No call waits longer than `delay` milliseconds from the grant of its token to its request. */
  ghost predicate SentWithin(s: State, delay: int) {
    forall i, k :: 0 <= i < |s.history| && s.history[i].Request? && 0 <= k < |s.lane.log|
                   && s.lane.log[k].id == s.history[i].token ==>
                     s.history[i].time - s.lane.log[k].time <= delay
  }

  function TokensIn(history: seq<Event>, from: int, to: int): set<nat> {
    set i | 0 <= i < |history| && IsRequestIn(history[i], from, to) :: history[i].token
  }

  function GrantsIn(log: seq<Rate.Grant>, from: int, to: int): set<nat> {
    set i | 0 <= i < |log| && RateWindows.InWindow(log[i], from, to) :: log[i].id
  }

  lemma {:induction false} TokenForEach(history: seq<Event>, from: int, to: int)
    requires forall i, j :: 0 <= i < j < |history| && history[i].Request? && history[j].Request? ==>
                              history[i].token != history[j].token
    ensures |TokensIn(history, from, to)| == RequestsIn(history, from, to)
  {
    if history != [] {
      var front, last := history[..|history| - 1], history[|history| - 1];
      TokenForEach(front, from, to);
      assert TokensIn(history, from, to) == TokensIn(front, from, to) + if IsRequestIn(last, from, to) then {last.token} else {};
    }
  }

  lemma {:induction false} GrantForEach(log: seq<Rate.Grant>, from: int, to: int)
    ensures |GrantsIn(log, from, to)| <= RateWindows.CountIn(log, from, to)
  {
    if log != [] {
      var front, last := log[..|log| - 1], log[|log| - 1];
      GrantForEach(front, from, to);
      assert GrantsIn(log, from, to) == GrantsIn(front, from, to) + if RateWindows.InWindow(last, from, to) then {last.id} else {};
    }
  }

  /** The requests of a window spend different tokens, all granted in the window or up to `delay` before it. */
  lemma GrantedNearby(s: State, start: int, from: int, to: int, delay: int)
    requires TokensOk(s, start) && SentWithin(s, delay)
    ensures RequestsIn(s.history, from, to) <= RateWindows.CountIn(s.lane.log, from - delay, to)
  {
    TokenForEach(s.history, from, to);
    GrantForEach(s.lane.log, from - delay, to);
    forall token | token in TokensIn(s.history, from, to)
      ensures token in GrantsIn(s.lane.log, from - delay, to)
    {
      var i :| 0 <= i < |s.history| && IsRequestIn(s.history[i], from, to) && s.history[i].token == token;
      assert HandedOut(s.lane, token, s.history[i].time);
      var k :| 0 <= k < |s.lane.log| && s.lane.log[k].id == token && s.lane.log[k].time <= s.history[i].time;
      assert RateWindows.InWindow(s.lane.log[k], from - delay, to);
    }
    SmallerSet(TokensIn(s.history, from, to), GrantsIn(s.lane.log, from - delay, to));
  }

  /* ----- The budget ----- */

  lemma {:induction false} RunKeepsLane(s: State, labels: seq<Label>, tables: seq<string>, from: int, to: int)
    requires Sound(s) && CanRun(s, labels, tables) && from <= to && RateWindows.WindowsOk(s.lane, from, to)
    ensures var t := RunAll(s, labels, tables);
            RateWindows.WindowsOk(t.lane, from, to) && RateWindows.SameLimits(t.lane, s.lane)
    decreases |labels|
  {
    hide Next, Enabled, RateWindows.WindowsOk;
    if labels != [] {
      StepIsSound(s, labels[0], tables);
      StepKeepsLane(s, labels[0], tables, from, to);
      RunKeepsLane(Next(s, labels[0], tables), labels[1..], tables, from, to);
    }
  }

  /**
   * In any window of any run at most the burst plus what the rate brings is sent, where the rate counts from
   * as long before the window as a call may take from the grant of its token to its request.
   */
  lemma WindowedRequestBudget(p: Process, labels: seq<Label>, from: int, to: int, delay: nat)
    requires p.Ok() && p.Runs(labels) && from <= to && SentWithin(p.Last(labels), delay)
    ensures RequestsIn(p.Last(labels).history, from, to) as real <= p.burst + Rate.Credit(p.rate, to - from + delay)
  {
    hide CanRun, RunAll, TokensOk, SentWithin, Rate.WindowOk, Rate.Credit, RequestsIn, RateWindows.CountIn,
         CallsOk, CircuitOk, CountsOk;
    LastInv(p, labels, p.start);
    var s := p.Last(labels);
    GrantedNearby(s, p.start, from, to, delay);
    RateWindows.FullBucketsWithin(p.Lane(), from - delay, to);
    RunKeepsLane(p.First(), labels, p.tables, from - delay, to);
    Rate.WindowBound(s.lane.bucket, RateWindows.CountIn(s.lane.log, from - delay, to), from - delay, to);
  }
}
