/** packages/db/src/migrations.ts: what a runner reports, told from what it listed and from what became of its requests. */
module MigrationOutcomes {
  import opened Wrappers
  import opened Migrations
  import opened MigrationReports

  /* ----- The order of names ----- */

  /** Equal up to position `n`, where `a` has ended or has the smaller character. */
  predicate DiffersAt(a: string, b: string, n: int) {
    0 <= n <= |a| && n < |b| && a[..n] == b[..n] && (n == |a| || a[n] < b[n])
  }

  ghost predicate Precedes(a: string, b: string) {
    exists n :: DiffersAt(a, b, n)
  }

  lemma DiffersLater(a: string, b: string, n: int)
    requires a != "" && b != "" && a[0] == b[0]
    ensures DiffersAt(a[1..], b[1..], n - 1) <==> n > 0 && DiffersAt(a, b, n)
  {
    if 0 < n <= |a| && n < |b| {
      assert a[..n] == [a[0]] + a[1..][..n - 1] && b[..n] == [b[0]] + b[1..][..n - 1];
      assert a[1..][..n - 1] == a[..n][1..] && b[1..][..n - 1] == b[..n][1..];
    }
  }

  lemma LaterNeverPrecedes(a: string, b: string)
    requires a != "" && b != "" && b[0] < a[0]
    ensures !Precedes(a, b)
  {
    forall n
      ensures !DiffersAt(a, b, n)
    {
      if 0 < n <= |a| && n < |b| {
        assert a[..n][0] == a[0] && b[..n][0] == b[0];
      }
    }
  }

  lemma {:induction false} LessIsPrecedes(a: string, b: string)
    ensures Less(a, b) <==> Precedes(a, b)
  {
    if b != "" {
      if a == "" || a[0] < b[0] {
        assert DiffersAt(a, b, 0);
      } else if a[0] == b[0] {
        LessIsPrecedes(a[1..], b[1..]);
        if n :| DiffersAt(a[1..], b[1..], n) {
          DiffersLater(a, b, n + 1);
        }
        if n :| DiffersAt(a, b, n) {
          DiffersLater(a, b, n);
        }
      } else {
        LaterNeverPrecedes(a, b);
      }
    }
  }

  lemma {:induction false} LessTransitive(a: string, b: string, c: string)
    requires Less(a, b) && Less(b, c)
    ensures Less(a, c)
  {
    if a != "" && a[0] == b[0] && b[0] == c[0] {
      LessTransitive(a[1..], b[1..], c[1..]);
    }
  }

  lemma {:induction false} LessTotal(a: string, b: string)
    ensures Less(a, b) || Less(b, a) || a == b
  {
    if a != "" && b != "" && a[0] == b[0] {
      LessTotal(a[1..], b[1..]);
      assert a == [a[0]] + a[1..] && b == [b[0]] + b[1..];
    }
  }

  /* ----- What a runner has seen ----- */

  /** `latest` is no earlier than any listed name, and is one of these or one of the first `k` files. */
  ghost predicate IsLatestSeen(files: seq<string>, listed: set<string>, latest: Option<string>, k: nat) {
    if latest.None? then listed == {}
    else
      && (latest.value in listed || exists i :: 0 <= i < k && i < |files| && files[i] == latest.value)
      && forall name :: name in listed ==> !Less(latest.value, name)
  }

  /** Some listed name comes after this one. */
  ghost predicate BeforeListed(name: string, listed: set<string>) {
    exists n :: n in listed && Precedes(name, n)
  }

  ghost predicate SentBy(s: State, r: nat, name: string, id: int) {
    0 <= id < |s.requests| && s.requests[id].owner == r && s.requests[id].name == name
  }

  ghost predicate Sent(s: State, r: nat, name: string) {
    exists id :: SentBy(s, r, name, id)
  }

  lemma {:induction false} LatestIsSeen(files: seq<string>, names: seq<string>)
    ensures IsLatestSeen(files, (set name | name in names), Latest(names), 0)
  {
    if names != [] {
      var front, last := names[..|names| - 1], names[|names| - 1];
      LatestIsSeen(files, front);
      assert names == front + [last];
      LaterIsSeen(files, (set name | name in front), Latest(front), 0, last);
      assert (set name | name in front) + {last} == (set name | name in names);
    }
  }

  /** One more listed name. */
  lemma LaterIsSeen(files: seq<string>, listed: set<string>, latest: Option<string>, k: nat, name: string)
    requires IsLatestSeen(files, listed, latest, k)
    ensures IsLatestSeen(files, listed + {name}, Later(latest, name), k)
  {
    LessIrreflexive(name);
    if latest.Some? && Less(latest.value, name) {
      forall other | other in listed
        ensures !Less(name, other)
      {
        if Less(name, other) {
          LessTransitive(latest.value, name, other);
        }
      }
    }
  }

  /** One more file seen recorded. */
  lemma AdvanceIsSeen(files: seq<string>, listed: set<string>, latest: Option<string>, k: nat)
    requires k < |files| && IsLatestSeen(files, listed, latest, k)
    ensures IsLatestSeen(files, listed, Later(latest, files[k]), k + 1)
  {
    if latest.Some? && Less(latest.value, files[k]) {
      forall other | other in listed
        ensures !Less(files[k], other)
      {
        if Less(files[k], other) {
          LessTransitive(latest.value, files[k], other);
        }
      }
    }
  }

  /** A file from `k` on is late exactly when a listed name comes after it. */
  lemma LateMeans(files: seq<string>, listed: set<string>, latest: Option<string>, k: nat)
    requires Sorted(files) && k < |files| && IsLatestSeen(files, listed, latest, k)
    ensures latest.Some? && Less(files[k], latest.value) <==> BeforeListed(files[k], listed)
  {
    if latest.Some? && Less(files[k], latest.value) {
      if latest.value !in listed {
        var i :| 0 <= i < k && files[i] == latest.value;
        LessAsymmetric(files[i], files[k]);
      }
      LessIsPrecedes(files[k], latest.value);
    }
    if BeforeListed(files[k], listed) {
      var n :| n in listed && Precedes(files[k], n);
      LessIsPrecedes(files[k], n);
      LessTotal(latest.value, n);
      if Less(n, latest.value) {
        LessTransitive(files[k], n, latest.value);
      }
    }
  }

  /* ----- The reports of a runner ----- */

  ghost predicate WasRejected(s: State, r: nat, name: string) {
    exists id :: SentBy(s, r, name, id) && s.requests[id].status == Rejected
  }

  /** The file was listed, or is reported as applied, or somebody else recorded it and the own request failed. */
  ghost predicate IsAccountedFor(s: State, runner: Runner, r: nat, name: string) {
    || name in runner.recordedSet || name in runner.applied
    || (name in s.recorded && WasRejected(s, r, name))
  }

  /** The name of one of the first `k` files. */
  ghost predicate IsAmong(files: seq<string>, k: nat, name: string) {
    exists i :: 0 <= i < k && i < |files| && files[i] == name
  }

  /** Some of the first `k` files, in order. */
  ghost predicate Rising(files: seq<string>, names: seq<string>, k: nat) {
    Sorted(names) && forall name :: name in names ==> IsAmong(files, k, name)
  }

  /** A runner that is done with the first `k` files. */
  ghost predicate ReportsTo(files: seq<string>, s: State, runner: Runner, r: nat, k: nat) {
    && k <= |files| && Rising(files, runner.applied, k)
    && (forall name :: name in runner.applied ==> name !in runner.recordedSet)
    && (forall i :: 0 <= i < k ==> IsAccountedFor(s, runner, r, files[i]))
  }

  /** A runner at file `k` that has sent it, or not yet. */
  ghost predicate ReportsAt(files: seq<string>, s: State, runner: Runner, r: nat, k: nat, sent: bool) {
    && ReportsTo(files, s, runner, r, k) && IsLatestSeen(files, runner.recordedSet, runner.latest, k)
    && Rising(files, runner.outOfOrder, if sent then k + 1 else k)
    && (sent ==> k < |files| && files[k] !in runner.recordedSet)
  }

  ghost predicate OutOfOrderIsTold(s: State, runner: Runner, r: nat) {
    forall name :: name in runner.outOfOrder <==> Sent(s, r, name) && BeforeListed(name, runner.recordedSet)
  }

  ghost predicate PhaseIsTold(files: seq<string>, s: State, runner: Runner, r: nat) {
    match runner.phase
    case Creating => runner.applied == [] && runner.outOfOrder == [] && forall name :: !Sent(s, r, name)
    case Listing => runner.applied == [] && runner.outOfOrder == [] && forall name :: !Sent(s, r, name)
    case Ready(k) => ReportsAt(files, s, runner, r, k, false)
    case Waiting(k, id) => ReportsAt(files, s, runner, r, k, true) && SentBy(s, r, files[k], id)
    case Checking(k, unknown) => ReportsAt(files, s, runner, r, k, true) && (!unknown ==> WasRejected(s, r, files[k]))
    case Done => ReportsTo(files, s, runner, r, |files|) && Rising(files, runner.outOfOrder, |files|)
    case Failed => Rising(files, runner.applied, |files|) && Rising(files, runner.outOfOrder, |files|)
  }

  ghost predicate Reports(files: seq<string>, s: State, runner: Runner, r: nat) {
    OutOfOrderIsTold(s, runner, r) && PhaseIsTold(files, s, runner, r)
  }

  ghost predicate AllReport(files: seq<string>, s: State) {
    && (forall id :: 0 <= id < |s.requests| ==> s.requests[id].owner < |s.runners|)
    && forall r :: 0 <= r < |s.runners| ==> Reports(files, s, s.runners[r], r)
  }

  /* ----- A step of somebody else ----- */

  /** Records stay, requests keep owner and name, a failed one has failed for good, and runner `r` sends nothing. */
  ghost predicate Keeps(s: State, t: State, r: nat) {
    && Grows(s, t)
    && (forall id :: 0 <= id < |s.requests| && s.requests[id].status == Rejected ==> t.requests[id].status == Rejected)
    && (forall id :: |s.requests| <= id < |t.requests| ==> t.requests[id].owner != r)
  }

  lemma NextKeeps(files: seq<string>, s: State, l: Label, r: nat)
    requires Enabled(files, s, l) && l != Send(r)
    ensures Keeps(s, Next(files, s, l), r)
  {
    NextGrows(files, s, l);
  }

  lemma SentStays(s: State, t: State, r: nat, name: string)
    requires Keeps(s, t, r)
    ensures Sent(s, r, name) <==> Sent(t, r, name)
    ensures WasRejected(s, r, name) ==> WasRejected(t, r, name)
  {
    if id :| SentBy(s, r, name, id) {
      assert SentBy(t, r, name, id);
    }
    if id :| SentBy(t, r, name, id) {
      assert SentBy(s, r, name, id);
    }
    if WasRejected(s, r, name) {
      var id :| SentBy(s, r, name, id) && s.requests[id].status == Rejected;
      assert SentBy(t, r, name, id);
    }
  }

  lemma AccountStays(files: seq<string>, s: State, t: State, runner: Runner, r: nat, k: nat)
    requires Keeps(s, t, r) && ReportsTo(files, s, runner, r, k)
    ensures ReportsTo(files, t, runner, r, k)
  {
    hide Rising, WasRejected;
    forall i | 0 <= i < k
      ensures IsAccountedFor(t, runner, r, files[i])
    {
      SentStays(s, t, r, files[i]);
    }
  }

  lemma ReportsStay(files: seq<string>, s: State, t: State, runner: Runner, r: nat)
    requires Keeps(s, t, r) && Reports(files, s, runner, r)
    ensures Reports(files, t, runner, r)
  {
    hide ReportsTo, Rising, IsLatestSeen, WasRejected, BeforeListed, Sent;
    forall name
      ensures Sent(s, r, name) <==> Sent(t, r, name)
      ensures WasRejected(s, r, name) ==> WasRejected(t, r, name)
    {
      SentStays(s, t, r, name);
    }
    match runner.phase {
      case Ready(k) => AccountStays(files, s, t, runner, r, k);
      case Waiting(k, _) => AccountStays(files, s, t, runner, r, k);
      case Checking(k, _) => AccountStays(files, s, t, runner, r, k);
      case Done => AccountStays(files, s, t, runner, r, |files|);
      case _ =>
    }
  }

  /* ----- A step of the runner ----- */

  lemma RisingFurther(files: seq<string>, names: seq<string>, k: nat, m: nat)
    requires Rising(files, names, k) && k <= m
    ensures Rising(files, names, m)
  {
    hide Sorted;
    forall name | name in names
      ensures IsAmong(files, m, name)
    {
      assert IsAmong(files, k, name);
    }
  }

  lemma RisingNext(files: seq<string>, names: seq<string>, k: nat)
    requires Sorted(files) && k < |files| && Rising(files, names, k)
    ensures Rising(files, names + [files[k]], k + 1)
  {
    hide Less;
    var more := names + [files[k]];
    forall i, j | 0 <= i < j < |more|
      ensures Less(more[i], more[j])
    {
      if j == |names| {
        assert IsAmong(files, k, names[i]);
      }
    }
    forall name | name in more
      ensures IsAmong(files, k + 1, name)
    {
      if name in names {
        assert IsAmong(files, k, name);
      }
    }
  }

  lemma ListedReports(files: seq<string>, s: State, r: nat)
    requires r < |s.runners| && s.runners[r].phase == Listing && Reports(files, s, s.runners[r], r)
    ensures var t := Next(files, s, Listed(r)); Reports(files, t, t.runners[r], r)
  {
    hide Sent, IsLatestSeen, BeforeListed;
    var t := Next(files, s, Listed(r));
    NextKeeps(files, s, Listed(r), r);
    forall name
      ensures !Sent(t, r, name)
    {
      SentStays(s, t, r, name);
    }
    LatestIsSeen(files, s.recorded);
    assert t.runners[r].recordedSet == (set name | name in s.recorded);
  }

  lemma SendReports(files: seq<string>, s: State, r: nat)
    requires Sorted(files) && Enabled(files, s, Send(r)) && Reports(files, s, s.runners[r], r)
    ensures var t := Next(files, s, Send(r)); Reports(files, t, t.runners[r], r)
  {
    hide Less, Sorted, Rising, BeforeListed, IsLatestSeen;
    var t, runner, k := Next(files, s, Send(r)), s.runners[r], s.runners[r].phase.next;
    LateMeans(files, runner.recordedSet, runner.latest, k);
    RisingFurther(files, runner.outOfOrder, k, k + 1);
    RisingNext(files, runner.outOfOrder, k);
    assert SentBy(t, r, files[k], |s.requests|);
    forall name
      ensures Sent(t, r, name) <==> Sent(s, r, name) || name == files[k]
      ensures WasRejected(s, r, name) ==> WasRejected(t, r, name)
    {
      SentOnce(s, t, Request(r, files[k], Pending), name);
    }
    assert t.runners[r].applied == runner.applied && t.runners[r].recordedSet == runner.recordedSet;
    assert ReportsTo(files, t, t.runners[r], r, k);
  }

  lemma SentOnce(s: State, t: State, q: Request, name: string)
    requires t.requests == s.requests + [q]
    ensures Sent(t, q.owner, name) <==> Sent(s, q.owner, name) || name == q.name
    ensures WasRejected(s, q.owner, name) ==> WasRejected(t, q.owner, name)
  {
    if id :| SentBy(s, q.owner, name, id) {
      assert SentBy(t, q.owner, name, id);
    }
    if id :| SentBy(t, q.owner, name, id) {
      assert id < |s.requests| ==> SentBy(s, q.owner, name, id);
    }
    if name == q.name {
      assert SentBy(t, q.owner, name, |s.requests|);
    }
    if WasRejected(s, q.owner, name) {
      var id :| SentBy(s, q.owner, name, id) && s.requests[id].status == Rejected;
      assert SentBy(t, q.owner, name, id);
    }
  }

  /** Going on to the next file, reported as applied or not. */
  lemma AdvanceReports(files: seq<string>, t: State, runner: Runner, after: Runner, r: nat, k: nat, own: bool)
    requires Sorted(files) && ReportsAt(files, t, runner, r, k, true) && OutOfOrderIsTold(t, runner, r)
    requires own || IsAccountedFor(t, runner, r, files[k])
    requires after.phase == Ready(k + 1) && after.latest == Later(runner.latest, files[k])
    requires after.recordedSet == runner.recordedSet && after.outOfOrder == runner.outOfOrder
    requires after.applied == if own then runner.applied + [files[k]] else runner.applied
    ensures Reports(files, t, after, r)
  {
    hide Less, Sorted, Later, Rising, IsLatestSeen, WasRejected;
    AdvanceIsSeen(files, runner.recordedSet, runner.latest, k);
    RisingFurther(files, runner.applied, k, k + 1);
    RisingNext(files, runner.applied, k);
    forall i | 0 <= i < k + 1
      ensures IsAccountedFor(t, after, r, files[i])
    {
      assert i < k ==> IsAccountedFor(t, runner, r, files[i]);
    }
  }

  lemma SkipReports(files: seq<string>, t: State, runner: Runner, r: nat, k: nat)
    requires ReportsAt(files, t, runner, r, k, false) && OutOfOrderIsTold(t, runner, r)
    requires k < |files| && files[k] in runner.recordedSet
    ensures Reports(files, t, runner.(phase := Ready(k + 1)), r)
  {
    hide Less, Rising, WasRejected;
    RisingFurther(files, runner.applied, k, k + 1);
    RisingFurther(files, runner.outOfOrder, k, k + 1);
    var after := runner.(phase := Ready(k + 1));
    forall i | 0 <= i < k + 1
      ensures IsAccountedFor(t, after, r, files[i])
    {
      assert i < k ==> IsAccountedFor(t, runner, r, files[i]);
    }
  }

  lemma FailReports(files: seq<string>, t: State, runner: Runner, r: nat)
    requires Reports(files, t, runner, r) && !runner.phase.Done?
    ensures Reports(files, t, runner.(phase := Failed), r)
  {
    hide Less, IsLatestSeen, WasRejected, IsAccountedFor, BeforeListed, Sent;
    var after := runner.(phase := Failed);
    match runner.phase {
      case Ready(k) => AtMost(files, t, runner, r, k, false);
      case Waiting(k, _) => AtMost(files, t, runner, r, k, true);
      case Checking(k, _) => AtMost(files, t, runner, r, k, true);
      case _ =>
    }
    assert PhaseIsTold(files, t, after, r);
  }

  lemma AtMost(files: seq<string>, t: State, runner: Runner, r: nat, k: nat, sent: bool)
    requires ReportsAt(files, t, runner, r, k, sent)
    ensures Rising(files, runner.applied, |files|) && Rising(files, runner.outOfOrder, |files|)
  {
    hide Rising, IsLatestSeen, IsAccountedFor;
    RisingFurther(files, runner.applied, k, |files|);
    RisingFurther(files, runner.outOfOrder, if sent then k + 1 else k, |files|);
  }

  /** The runner goes on to ask whether the file is recorded after all. */
  lemma CheckReports(files: seq<string>, t: State, runner: Runner, r: nat, unknown: bool)
    requires runner.phase.Waiting? && Reports(files, t, runner, r)
    requires !unknown ==> runner.phase.request < |t.requests| && t.requests[runner.phase.request].status == Rejected
    ensures Reports(files, t, runner.(phase := Checking(runner.phase.next, unknown)), r)
  {
    hide Rising, IsLatestSeen, BeforeListed, Sent;
  }

  lemma FinishReports(files: seq<string>, t: State, runner: Runner, r: nat)
    requires runner.phase == Ready(|files|) && Reports(files, t, runner, r)
    ensures Reports(files, t, runner.(phase := Done), r)
  {
    hide Rising, IsLatestSeen, BeforeListed, Sent;
  }

  lemma MoverReports(files: seq<string>, s: State, l: Label, r: nat)
    requires Sorted(files) && Enabled(files, s, l) && MovesRunner(l, r) && l != Listed(r)
    requires r < |s.runners| && Reports(files, s, s.runners[r], r)
    ensures var t := Next(files, s, l); Reports(files, t, t.runners[r], r)
  {
    hide Sorted, Rising, IsLatestSeen, WasRejected, BeforeListed, Sent, ReportsTo;
    var t, runner := Next(files, s, l), s.runners[r];
    NextKeeps(files, s, l, r);
    ReportsStay(files, s, t, runner, r);
    match l {
      case Skip(_) => SkipReports(files, t, runner, r, runner.phase.next);
      case RespondFailed(_) => CheckReports(files, t, runner, r, false);
      case RespondUnknown(_) => CheckReports(files, t, runner, r, true);
      case FoundRecorded(_) =>
        AdvanceReports(files, t, runner, t.runners[r], r, runner.phase.next, runner.phase.unknown);
      case Abort(_) => FailReports(files, t, runner, r);
      case NotRecorded(_) => FailReports(files, t, runner, r);
      case Finish(_) => FinishReports(files, t, runner, r);
      case ReadFails(_) => FailReports(files, t, runner, r);
      case _ =>
    }
  }

  lemma RespondReports(files: seq<string>, s: State, r: nat)
    requires Sorted(files) && Enabled(files, s, RespondOk(r)) && Reports(files, s, s.runners[r], r)
    ensures var t := Next(files, s, RespondOk(r)); Reports(files, t, t.runners[r], r)
  {
    hide Sorted, Rising, IsLatestSeen, WasRejected, BeforeListed, Sent, ReportsTo;
    var t, runner := Next(files, s, RespondOk(r)), s.runners[r];
    NextKeeps(files, s, RespondOk(r), r);
    ReportsStay(files, s, t, runner, r);
    AdvanceReports(files, t, runner, t.runners[r], r, runner.phase.next, true);
  }

  /* ----- Runs ----- */

  lemma NextReports(files: seq<string>, s: State, l: Label)
    requires Sorted(files) && Enabled(files, s, l) && AllReport(files, s)
    ensures AllReport(files, Next(files, s, l))
  {
    hide Reports;
    var t := Next(files, s, l);
    forall r | 0 <= r < |t.runners|
      ensures Reports(files, t, t.runners[r], r)
    {
      RunnerReports(files, s, l, r);
    }
  }

  lemma RunnerReports(files: seq<string>, s: State, l: Label, r: nat)
    requires Sorted(files) && Enabled(files, s, l) && AllReport(files, s) && r < |Next(files, s, l).runners|
    ensures var t := Next(files, s, l); Reports(files, t, t.runners[r], r)
  {
    hide Reports;
    var t := Next(files, s, l);
    if r == |s.runners| {
      NewReports(files, t, r);
    } else if l == Listed(r) {
      ListedReports(files, s, r);
    } else if l == Send(r) {
      SendReports(files, s, r);
    } else if l == RespondOk(r) {
      RespondReports(files, s, r);
    } else if MovesRunner(l, r) {
      MoverReports(files, s, l, r);
    } else {
      assert t.runners[r] == s.runners[r];
      NextKeeps(files, s, l, r);
      ReportsStay(files, s, t, s.runners[r], r);
    }
  }

  lemma NewReports(files: seq<string>, t: State, r: nat)
    requires forall id :: 0 <= id < |t.requests| ==> t.requests[id].owner != r
    ensures Reports(files, t, NEW_RUNNER, r)
  {
  }

  lemma {:induction false} RunReports(files: seq<string>, s: State, labels: seq<Label>)
    requires Sorted(files) && AllReport(files, s) && CanRun(files, s, labels)
    ensures AllReport(files, RunAll(files, s, labels))
    decreases |labels|
  {
    hide AllReport, Enabled, Next;
    if labels != [] {
      NextReports(files, s, labels[0]);
      RunReports(files, Next(files, s, labels[0]), labels[1..]);
    }
  }

  /**
   * In every run, a runner reports as out of order exactly the files that it sent and that precede a name it
   * had listed, each once and in order.
   */
  lemma OutOfOrderExactly(files: seq<string>, recorded: seq<string>, labels: seq<Label>, r: nat)
    requires Sorted(files) && CanRun(files, Start(recorded), labels)
    requires r < |RunAll(files, Start(recorded), labels).runners|
    ensures var s := RunAll(files, Start(recorded), labels);
            && Sorted(s.runners[r].outOfOrder)
            && forall name :: name in s.runners[r].outOfOrder <==> Sent(s, r, name) && BeforeListed(name, s.runners[r].recordedSet)
  {
    hide CanRun, RunAll, IsLatestSeen, ReportsTo, BeforeListed, Sent;
    RunReports(files, Start(recorded), labels);
    var runner := RunAll(files, Start(recorded), labels).runners[r];
    assert Reports(files, RunAll(files, Start(recorded), labels), runner, r);
  }

  /**
   * A runner that has finished accounts for every file: it was listed, or it is reported as applied, in order
   * and not both, or it is recorded though the runner's own request failed.
   */
  lemma FinishedAccounts(files: seq<string>, recorded: seq<string>, labels: seq<Label>, r: nat)
    requires Sorted(files) && CanRun(files, Start(recorded), labels)
    requires var s := RunAll(files, Start(recorded), labels); r < |s.runners| && s.runners[r].phase == Done
    ensures var s := RunAll(files, Start(recorded), labels);
            && Sorted(s.runners[r].applied)
            && (forall name :: name in s.runners[r].applied ==> name in files && name !in s.runners[r].recordedSet)
            && forall name :: name in files ==> IsAccountedFor(s, s.runners[r], r, name)
  {
    hide CanRun, RunAll, OutOfOrderIsTold, WasRejected;
    RunReports(files, Start(recorded), labels);
    var s := RunAll(files, Start(recorded), labels);
    assert Reports(files, s, s.runners[r], r);
    forall name | name in files
      ensures IsAccountedFor(s, s.runners[r], r, name)
    {
      var i :| 0 <= i < |files| && files[i] == name;
      assert IsAccountedFor(s, s.runners[r], r, files[i]);
    }
  }

  /* ----- Runs there are ----- */

  /** One runner before file `k`; every request was committed, and nothing from `k` on but what it had listed is recorded. */
  ghost predicate AloneAt(files: seq<string>, recorded: seq<string>, s: State, k: nat) {
    && k <= |files| && |s.runners| == 1 && s.runners[0].phase == Ready(k)
    && s.runners[0].recordedSet == (set name | name in recorded)
    && (forall id :: 0 <= id < |s.requests| ==> s.requests[id].status == Committed)
    && (forall i :: k <= i < |files| && files[i] in s.recorded ==> files[i] in recorded)
  }

  lemma AloneSkips(files: seq<string>, recorded: seq<string>, s: State, k: nat)
    requires AloneAt(files, recorded, s, k) && k < |files| && files[k] in recorded
    ensures Enabled(files, s, Skip(0)) && AloneAt(files, recorded, Next(files, s, Skip(0)), k + 1)
  {
  }

  lemma AloneApplies(files: seq<string>, recorded: seq<string>, s: State, k: nat) returns (s1: State, s2: State, s3: State)
    requires Sorted(files) && AloneAt(files, recorded, s, k) && k < |files| && files[k] !in recorded
    ensures Enabled(files, s, Send(0)) && s1 == Next(files, s, Send(0))
    ensures Enabled(files, s1, Commit(|s.requests|)) && s2 == Next(files, s1, Commit(|s.requests|))
    ensures Enabled(files, s2, RespondOk(0)) && s3 == Next(files, s2, RespondOk(0)) && AloneAt(files, recorded, s3, k + 1)
  {
    hide Less, Later;
    s1 := Next(files, s, Send(0));
    assert s1.recorded == s.recorded && s1.runners[0].phase == Waiting(k, |s.requests|);
    assert s1.requests == s.requests + [Request(0, files[k], Pending)];
    s2 := Next(files, s1, Commit(|s.requests|));
    assert s2.recorded == s.recorded + [files[k]];
    s3 := Next(files, s2, RespondOk(0));
    forall i | k + 1 <= i < |files| && files[i] in s3.recorded
      ensures files[i] in recorded
    {
      if files[i] == files[k] {
        SortedDistinct(files, i, k);
      }
    }
  }

  lemma {:induction false} AloneGoesOn(files: seq<string>, recorded: seq<string>, labels: seq<Label>, k: nat) returns (more: seq<Label>)
    requires Sorted(files) && CanRun(files, Start(recorded), labels)
    requires AloneAt(files, recorded, RunAll(files, Start(recorded), labels), k)
    ensures CanRun(files, Start(recorded), more) && AloneAt(files, recorded, RunAll(files, Start(recorded), more), |files|)
    decreases |files| - k
  {
    hide CanRun, RunAll, Enabled, Next, Sorted;
    more := labels;
    if k < |files| {
      var s := RunAll(files, Start(recorded), labels);
      if files[k] in recorded {
        AloneSkips(files, recorded, s, k);
        more := Append(files, recorded, more, Skip(0), Next(files, s, Skip(0)));
      } else {
        var s1, s2, s3 := AloneApplies(files, recorded, s, k);
        more := Append(files, recorded, more, Send(0), s1);
        more := Append(files, recorded, more, Commit(|s.requests|), s2);
        more := Append(files, recorded, more, RespondOk(0), s3);
      }
      more := AloneGoesOn(files, recorded, more, k + 1);
    }
  }

  /** From every database there is a run of one runner that finishes and reports exactly the files that were missing. */
  lemma AloneFinishes(files: seq<string>, recorded: seq<string>) returns (labels: seq<Label>)
    requires Sorted(files)
    ensures CanRun(files, Start(recorded), labels)
    ensures var s := RunAll(files, Start(recorded), labels);
            && |s.runners| == 1 && s.runners[0].phase == Done && Sorted(s.runners[0].applied)
            && forall name :: name in s.runners[0].applied <==> name in files && name !in recorded
  {
    labels := Arrive(files, recorded, [], 0);
    hide CanRun, RunAll, Latest;
    labels := AloneGoesOn(files, recorded, labels, 0);
    var s := RunAll(files, Start(recorded), labels);
    labels := Append(files, recorded, labels, Finish(0), Next(files, s, Finish(0)));
    FinishedAccounts(files, recorded, labels, 0);
  }

  /** The runner waits for its request about file `k`, which is under way. */
  predicate Waits(files: seq<string>, s: State, r: nat, k: nat, id: nat) {
    && r < |s.runners| && s.runners[r].phase == Waiting(k, id) && k < |files|
    && id < |s.requests| && s.requests[id] == Request(r, files[k], Pending)
  }

  /** The request can commit exactly when the file is not recorded; the runner goes on, told so or not. */
  lemma CommitsOn(files: seq<string>, s: State, r: nat, k: nat, id: nat) returns (t: State, u: State)
    requires Waits(files, s, r, k, id)
    ensures Enabled(files, s, Commit(id)) <==> files[k] !in s.recorded
    ensures files[k] !in s.recorded ==>
              && t == Next(files, s, Commit(id)) && t.recorded == s.recorded + [files[k]]
              && Enabled(files, t, RespondOk(r)) && Next(files, t, RespondOk(r)).runners[r].phase == Ready(k + 1)
              && Enabled(files, t, RespondUnknown(r)) && u == Next(files, t, RespondUnknown(r))
              && Enabled(files, u, FoundRecorded(r)) && Next(files, u, FoundRecorded(r)).runners[r].phase == Ready(k + 1)
  {
    hide Less, Later, Sorted;
    t, u := s, s;
    if files[k] !in s.recorded {
      t := Next(files, s, Commit(id));
      assert t.recorded[|s.recorded|] == files[k];
      assert t.runners[r] == s.runners[r];
      u := Next(files, t, RespondUnknown(r));
    }
  }

  /** The request can fail; the runner goes on when the file is recorded all the same, and otherwise gives up. */
  lemma RejectsOn(files: seq<string>, s: State, r: nat, k: nat, id: nat) returns (t: State, u: State)
    requires Waits(files, s, r, k, id)
    ensures Enabled(files, s, Reject(id)) && t == Next(files, s, Reject(id)) && t.recorded == s.recorded
    ensures Enabled(files, t, Abort(r)) && Next(files, t, Abort(r)).runners[r].phase == Failed
    ensures Enabled(files, t, RespondFailed(r)) && u == Next(files, t, RespondFailed(r))
    ensures if files[k] in s.recorded
            then Enabled(files, u, FoundRecorded(r)) && Next(files, u, FoundRecorded(r)).runners[r].phase == Ready(k + 1)
            else Enabled(files, u, NotRecorded(r)) && Next(files, u, NotRecorded(r)).runners[r].phase == Failed
  {
    hide Less, Later, Sorted;
    t := Next(files, s, Reject(id));
    assert t.runners[r] == s.runners[r] && t.recorded == s.recorded;
    u := Next(files, t, RespondFailed(r));
  }
}
