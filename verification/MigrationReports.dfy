/** packages/db/src/migrations.ts: what the runners report as applied, and who committed it. */
module MigrationReports {
  import opened Migrations

  /* ----- What is reported was committed during the run ----- */

  /** Some request committed the file. */
  ghost predicate IsCommitted(s: State, name: string) {
    exists id :: 0 <= id < |s.requests| && s.requests[id].name == name && s.requests[id].status == Committed
  }

  ghost predicate RunnerNew(files: seq<string>, before: seq<string>, s: State, runner: Runner) {
    && (forall i :: 0 <= i < |runner.applied| ==> runner.applied[i] in files && runner.applied[i] !in before && IsCommitted(s, runner.applied[i]))
    && (runner.phase.Ready? ==> forall name :: name in before ==> name in runner.recordedSet)
    && (match runner.phase
        case Waiting(k, id) =>
          && (forall name :: name in before ==> name in runner.recordedSet)
          && k < |files| && files[k] !in before && id < |s.requests| && s.requests[id].name == files[k]
        case Checking(k, _) =>
          (forall name :: name in before ==> name in runner.recordedSet) && k < |files| && files[k] !in before
        case _ => true)
  }

  /** The records are those from before the run and those committed in it; reports are about the latter. */
  ghost predicate NewOnly(files: seq<string>, before: seq<string>, s: State) {
    && (forall name :: name in before ==> name in s.recorded)
    && (forall name :: name in s.recorded ==> name in before || IsCommitted(s, name))
    && (forall id :: 0 <= id < |s.requests| ==> s.requests[id].owner < |s.runners|)
    && (forall r :: 0 <= r < |s.runners| ==> RunnerNew(files, before, s, s.runners[r]))
  }

  lemma CommittedStays(s: State, t: State, name: string)
    requires Grows(s, t) && IsCommitted(s, name)
    ensures IsCommitted(t, name)
  {
    var id :| 0 <= id < |s.requests| && s.requests[id].name == name && s.requests[id].status == Committed;
    assert t.requests[id].name == name;
  }

  lemma RunnerStaysNew(files: seq<string>, before: seq<string>, s: State, t: State, runner: Runner)
    requires RunnerNew(files, before, s, runner) && Grows(s, t)
    ensures RunnerNew(files, before, t, runner)
  {
    hide IsCommitted;
    forall i | 0 <= i < |runner.applied|
      ensures IsCommitted(t, runner.applied[i])
    {
      CommittedStays(s, t, runner.applied[i]);
    }
  }

  /** The runner whose step it is; the number of runners when it is nobody's. */
  function Mover(s: State, l: Label): nat {
    match l
    case Join => |s.runners|
    case Commit(_) => |s.runners|
    case Reject(_) => |s.runners|
    case _ => l.r
  }

  lemma MoverStaysNew(files: seq<string>, before: seq<string>, s: State, l: Label)
    requires Enabled(files, s, l) && NewOnly(files, before, s) && Mover(s, l) < |s.runners|
    ensures RunnerNew(files, before, Next(files, s, l), Next(files, s, l).runners[Mover(s, l)])
  {
    hide IsCommitted;
    var r, t := Mover(s, l), Next(files, s, l);
    NextGrows(files, s, l);
    RunnerStaysNew(files, before, s, t, s.runners[r]);
    if l.RespondOk? {
      Settled(t, s.runners[r].phase.request);
    } else if l.FoundRecorded? {
      CommittedStays(s, t, files[s.runners[r].phase.next]);
    }
  }

  lemma Settled(s: State, id: nat)
    requires id < |s.requests| && s.requests[id].status == Committed
    ensures IsCommitted(s, s.requests[id].name)
  {
  }

  lemma NextKeepsNew(files: seq<string>, before: seq<string>, s: State, l: Label)
    requires Enabled(files, s, l) && NewOnly(files, before, s)
    ensures NewOnly(files, before, Next(files, s, l))
  {
    hide IsCommitted, RunnerNew;
    var t := Next(files, s, l);
    NextGrows(files, s, l);
    forall name | name in t.recorded
      ensures name in before || IsCommitted(t, name)
    {
      if name in s.recorded && name !in before {
        CommittedStays(s, t, name);
      } else if name !in s.recorded {
        Settled(t, l.id);
      }
    }
    forall r | 0 <= r < |t.runners|
      ensures RunnerNew(files, before, t, t.runners[r])
    {
      if r == Mover(s, l) && r < |s.runners| {
        MoverStaysNew(files, before, s, l);
      } else if r < |s.runners| {
        assert t.runners[r] == s.runners[r];
        RunnerStaysNew(files, before, s, t, s.runners[r]);
      } else {
        NewRunnerIsNew(files, before, t);
      }
    }
  }

  lemma NewRunnerIsNew(files: seq<string>, before: seq<string>, s: State)
    ensures RunnerNew(files, before, s, NEW_RUNNER)
  {
  }

  lemma {:induction false} RunKeepsNew(files: seq<string>, before: seq<string>, s: State, labels: seq<Label>)
    requires NewOnly(files, before, s) && CanRun(files, s, labels)
    ensures NewOnly(files, before, RunAll(files, s, labels))
    decreases |labels|
  {
    hide NewOnly, Enabled, Next;
    if labels != [] {
      NextKeepsNew(files, before, s, labels[0]);
      RunKeepsNew(files, before, Next(files, s, labels[0]), labels[1..]);
    }
  }

  /** In every run, what a runner reports was not recorded before, and a request of some runner committed it. */
  lemma AppliedIsNew(files: seq<string>, recorded: seq<string>, labels: seq<Label>, r: nat, name: string)
    requires CanRun(files, Start(recorded), labels)
    requires var s := RunAll(files, Start(recorded), labels); r < |s.runners| && name in s.runners[r].applied
    ensures name in files && name !in recorded
    ensures exists owner: nat :: owner < |RunAll(files, Start(recorded), labels).runners|
                                 && ConfirmedBy(RunAll(files, Start(recorded), labels), owner, name)
  {
    hide RunAll, CanRun;
    RunKeepsNew(files, recorded, Start(recorded), labels);
    var s := RunAll(files, Start(recorded), labels);
    assert RunnerNew(files, recorded, s, s.runners[r]);
    var i :| 0 <= i < |s.runners[r].applied| && s.runners[r].applied[i] == name;
    var id :| 0 <= id < |s.requests| && s.requests[id].name == name && s.requests[id].status == Committed;
    assert ConfirmedBy(s, s.requests[id].owner, name);
  }

  /* ----- A lost response ----- */

  /** Every runner reports only what its own requests committed. */
  ghost predicate OwnReports(s: State) {
    forall r, name :: 0 <= r < |s.runners| && name in s.runners[r].applied ==> ConfirmedBy(s, r, name)
  }

  /** A run with one more step. */
  lemma {:induction false} Then(files: seq<string>, s: State, labels: seq<Label>, l: Label)
    requires CanRun(files, s, labels) && Enabled(files, RunAll(files, s, labels), l)
    ensures CanRun(files, s, labels + [l])
    ensures RunAll(files, s, labels + [l]) == Next(files, RunAll(files, s, labels), l)
    decreases |labels|
  {
    hide Enabled, Next;
    var all := labels + [l];
    if labels == [] {
      assert all[1..] == [];
    } else {
      assert all[1..] == labels[1..] + [l];
      Then(files, Next(files, s, labels[0]), labels[1..], l);
    }
  }

  /** A runner that listed the records skips the files it knows. */
  lemma {:induction false} SkipTo(files: seq<string>, s: State, labels: seq<Label>, r: nat, k: nat) returns (more: seq<Label>)
    requires CanRun(files, s, labels) && k <= |files|
    requires var t := RunAll(files, s, labels);
             r < |t.runners| && t.runners[r].phase == Ready(0) && forall i :: 0 <= i < k ==> files[i] in t.runners[r].recordedSet
    ensures CanRun(files, s, more)
    ensures var t := RunAll(files, s, labels);
            RunAll(files, s, more) == Put(t, r, t.runners[r].(phase := Ready(k)))
  {
    hide CanRun, RunAll;
    more := labels;
    if k > 0 {
      more := SkipTo(files, s, labels, r, k - 1);
      Then(files, s, more, Skip(r));
      more := more + [Skip(r)];
    }
  }

  /** A new runner that has listed the records and stands before file `k`. */
  function Arrived(recorded: seq<string>, k: nat): Runner {
    NEW_RUNNER.(phase := Ready(k), recordedSet := (set name | name in recorded), latest := Latest(recorded))
  }

  lemma Arrive(files: seq<string>, recorded: seq<string>, labels: seq<Label>, k: nat) returns (more: seq<Label>)
    requires CanRun(files, Start(recorded), labels) && k <= |files| && forall i :: 0 <= i < k ==> files[i] in recorded
    requires RunAll(files, Start(recorded), labels).recorded == recorded
    ensures CanRun(files, Start(recorded), more)
    ensures var s := RunAll(files, Start(recorded), labels);
            RunAll(files, Start(recorded), more) == s.(runners := s.runners + [Arrived(recorded, k)])
  {
    hide CanRun, RunAll;
    var s := RunAll(files, Start(recorded), labels);
    var r := |s.runners|;
    Then(files, Start(recorded), labels, Join);
    Then(files, Start(recorded), labels + [Join], Created(r));
    Then(files, Start(recorded), labels + [Join] + [Created(r)], Listed(r));
    more := SkipTo(files, Start(recorded), labels + [Join] + [Created(r)] + [Listed(r)], r, k);
  }

  /**
   * Two runners send the first file that is not recorded; the second one's request commits it, the first
   * one's response is lost. The first runner reports the file as applied, though it never committed it.
   */
  lemma LostResponseClaimsTheFile(files: seq<string>, recorded: seq<string>, k: nat) returns (labels: seq<Label>)
    requires k < |files| && files[k] !in recorded && forall i :: 0 <= i < k ==> files[i] in recorded
    ensures CanRun(files, Start(recorded), labels)
    ensures var s := RunAll(files, Start(recorded), labels);
            && |s.runners| == 2 && s.runners[0].applied == [files[k]]
            && !ConfirmedBy(s, 0, files[k]) && ConfirmedBy(s, 1, files[k])
  {
    labels := Arrive(files, recorded, [], k);
    labels := Arrive(files, recorded, labels, k);
    hide CanRun, RunAll, Next, Enabled, Arrived;
    var s1, s2, s3, s4 := Duel(files, recorded, k);
    labels := Append(files, recorded, labels, Send(0), s1);
    labels := Append(files, recorded, labels, Send(1), s2);
    labels := Append(files, recorded, labels, Commit(1), s3);
    labels := Append(files, recorded, labels, RespondUnknown(0), s4);
    labels := Append(files, recorded, labels, FoundRecorded(0), Next(files, s4, FoundRecorded(0)));
  }

  lemma Append(files: seq<string>, recorded: seq<string>, labels: seq<Label>, l: Label, t: State) returns (more: seq<Label>)
    requires CanRun(files, Start(recorded), labels)
    requires var s := RunAll(files, Start(recorded), labels); Enabled(files, s, l) && t == Next(files, s, l)
    ensures CanRun(files, Start(recorded), more) && RunAll(files, Start(recorded), more) == t
  {
    Then(files, Start(recorded), labels, l);
    more := labels + [l];
  }

  lemma Duel(files: seq<string>, recorded: seq<string>, k: nat) returns (s1: State, s2: State, s3: State, s4: State)
    requires k < |files| && files[k] !in recorded
    ensures var s := State(recorded, [], [Arrived(recorded, k), Arrived(recorded, k)]);
            && Enabled(files, s, Send(0)) && s1 == Next(files, s, Send(0))
            && Enabled(files, s1, Send(1)) && s2 == Next(files, s1, Send(1))
            && Enabled(files, s2, Commit(1)) && s3 == Next(files, s2, Commit(1))
            && Enabled(files, s3, RespondUnknown(0)) && s4 == Next(files, s3, RespondUnknown(0))
            && Enabled(files, s4, FoundRecorded(0))
    ensures var t := Next(files, s4, FoundRecorded(0));
            && |t.runners| == 2 && t.runners[0].applied == [files[k]]
            && !ConfirmedBy(t, 0, files[k]) && ConfirmedBy(t, 1, files[k])
  {
    hide Latest, Less, Later;
    var s := State(recorded, [], [Arrived(recorded, k), Arrived(recorded, k)]);
    s1 := Next(files, s, Send(0));
    assert s1.runners[1] == s.runners[1];
    s2 := Next(files, s1, Send(1));
    assert s2.requests == [Request(0, files[k], Pending), Request(1, files[k], Pending)];
    assert s2.runners[0].phase == Waiting(k, 0) && s2.runners[0].applied == [];
    s3 := Next(files, s2, Commit(1));
    assert s3.requests == [Request(0, files[k], Pending), Request(1, files[k], Committed)];
    s4 := Next(files, s3, RespondUnknown(0));
    var t := Next(files, s4, FoundRecorded(0));
    assert t.requests[1] == Request(1, files[k], Committed);
  }

  lemma {:induction false} FirstMissing(files: seq<string>, recorded: seq<string>, from: nat) returns (k: nat)
    requires from <= |files| && (forall i :: 0 <= i < from ==> files[i] in recorded)
    requires exists i :: from <= i < |files| && files[i] !in recorded
    ensures k < |files| && files[k] !in recorded && forall i :: 0 <= i < k ==> files[i] in recorded
    decreases |files| - from
  {
    k := from;
    if files[from] in recorded {
      k := FirstMissing(files, recorded, from + 1);
    }
  }

  lemma FewRunnersReportTheirOwn(files: seq<string>, recorded: seq<string>, labels: seq<Label>)
    requires CanRun(files, Start(recorded), labels)
    requires |RunAll(files, Start(recorded), labels).runners| <= 1 || forall i :: 0 <= i < |files| ==> files[i] in recorded
    ensures OwnReports(RunAll(files, Start(recorded), labels))
  {
    hide CanRun, RunAll, ConfirmedBy;
    var s := RunAll(files, Start(recorded), labels);
    forall r, name | 0 <= r < |s.runners| && name in s.runners[r].applied
      ensures ConfirmedBy(s, r, name)
    {
      AppliedIsNew(files, recorded, labels, r, name);
      assert |s.runners| <= 1;
    }
  }

  /**
   * With at most `n` runners, in every run every runner reports only what it committed itself, exactly when
   * there is one runner at most or every file was recorded before.
   */
  lemma ReportsAreOwnExactly(files: seq<string>, recorded: seq<string>, n: nat)
    ensures (forall labels :: CanRun(files, Start(recorded), labels) && |RunAll(files, Start(recorded), labels).runners| <= n ==>
                                OwnReports(RunAll(files, Start(recorded), labels)))
            <==> n <= 1 || forall i :: 0 <= i < |files| ==> files[i] in recorded
  {
    hide CanRun, RunAll, OwnReports;
    if n <= 1 || forall i :: 0 <= i < |files| ==> files[i] in recorded {
      forall labels | CanRun(files, Start(recorded), labels) && |RunAll(files, Start(recorded), labels).runners| <= n
        ensures OwnReports(RunAll(files, Start(recorded), labels))
      {
        FewRunnersReportTheirOwn(files, recorded, labels);
      }
    } else {
      var k := FirstMissing(files, recorded, 0);
      var labels := LostResponseClaimsTheFile(files, recorded, k);
      NotOwn(RunAll(files, Start(recorded), labels), files[k]);
    }
  }

  lemma NotOwn(s: State, name: string)
    requires |s.runners| > 0 && s.runners[0].applied == [name] && !ConfirmedBy(s, 0, name)
    ensures !OwnReports(s)
  {
    assert name in s.runners[0].applied;
  }
}
