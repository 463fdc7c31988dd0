/**
 * packages/db/src/migrations.ts as a protocol: any number of runners over one sorted file list, requests
 * that commit a script together with its record, late, or never, and responses that may be lost.
 */
module Migrations {
  import opened Wrappers
  import opened Numbers

  /** Comparison of JavaScript strings. */
  predicate Less(a: string, b: string) {
    if b == "" then false
    else if a == "" then true
    else a[0] < b[0] || (a[0] == b[0] && Less(a[1..], b[1..]))
  }

  predicate Sorted(files: seq<string>) {
    forall i, j :: 0 <= i < j < |files| ==> Less(files[i], files[j])
  }

  /* ----- State ----- */

  datatype Status = Pending | Committed | Rejected

  /** One request: a file's script and its record, sent by a runner. */
  datatype Request = Request(owner: nat, name: string, status: Status)

  datatype Phase =
    | Creating
    | Listing
    | Ready(next: nat)
    | Waiting(next: nat, request: nat)
    | Checking(next: nat, unknown: bool)
    | Done
    | Failed

  datatype Runner = Runner(
    phase: Phase,
    recordedSet: set<string>,
    latest: Option<string>,
    applied: seq<string>,
    confirmed: set<string>,
    outOfOrder: seq<string>)

  const NEW_RUNNER := Runner(Creating, {}, None, [], {}, [])

  /** `recorded` lists the rows of d1_migrations in the order they were committed. */
  datatype State = State(recorded: seq<string>, requests: seq<Request>, runners: seq<Runner>)

  function Later(latest: Option<string>, name: string): Option<string> {
    if latest.None? || Less(latest.value, name) then Some(name) else latest
  }

  function Latest(names: seq<string>): Option<string> {
    if names == [] then None else Later(Latest(names[..|names| - 1]), names[|names| - 1])
  }

  function Put(s: State, r: nat, runner: Runner): State
    requires r < |s.runners|
  {
    s.(runners := s.runners[r := runner])
  }

  function Mark(s: State, id: nat, status: Status): State
    requires id < |s.requests|
  {
    s.(requests := s.requests[id := s.requests[id].(status := status)])
  }

  /* ----- Steps ----- */

  datatype Label =
    | Join
    | Created(r: nat)
    | Listed(r: nat)
    | Skip(r: nat)
    | Send(r: nat)
    | Commit(id: nat)
    | Reject(id: nat)
    | RespondOk(r: nat)
    | RespondFailed(r: nat)
    | RespondUnknown(r: nat)
    | Abort(r: nat)
    | FoundRecorded(r: nat)
    | NotRecorded(r: nat)
    | ReadFails(r: nat)
    | Finish(r: nat)

  /** Whether a step can be taken. */
  predicate Enabled(files: seq<string>, s: State, l: Label) {
    match l
    case Join => true
    case Created(r) => r < |s.runners| && s.runners[r].phase == Creating
    case Listed(r) => r < |s.runners| && s.runners[r].phase == Listing
    case Skip(r) =>
      && r < |s.runners| && s.runners[r].phase.Ready?
      && s.runners[r].phase.next < |files| && files[s.runners[r].phase.next] in s.runners[r].recordedSet
    case Send(r) =>
      && r < |s.runners| && s.runners[r].phase.Ready?
      && s.runners[r].phase.next < |files| && files[s.runners[r].phase.next] !in s.runners[r].recordedSet
    case Commit(id) => id < |s.requests| && s.requests[id].status == Pending && s.requests[id].name !in s.recorded
    case Reject(id) => id < |s.requests| && s.requests[id].status == Pending
    case RespondOk(r) => AwaitsStatus(s, r, Committed)
    case RespondFailed(r) => AwaitsStatus(s, r, Rejected)
    case RespondUnknown(r) => r < |s.runners| && s.runners[r].phase.Waiting?
    case Abort(r) => AwaitsStatus(s, r, Rejected)
    case FoundRecorded(r) => ChecksName(files, s, r) && files[s.runners[r].phase.next] in s.recorded
    case NotRecorded(r) => ChecksName(files, s, r) && files[s.runners[r].phase.next] !in s.recorded
    case ReadFails(r) =>
      r < |s.runners| && (s.runners[r].phase.Checking? || s.runners[r].phase.Creating? || s.runners[r].phase.Listing?)
    case Finish(r) => r < |s.runners| && s.runners[r].phase == Ready(|files|)
  }

  predicate AwaitsStatus(s: State, r: nat, status: Status) {
    && r < |s.runners| && s.runners[r].phase.Waiting?
    && s.runners[r].phase.request < |s.requests| && s.requests[s.runners[r].phase.request].status == status
  }

  predicate ChecksName(files: seq<string>, s: State, r: nat) {
    r < |s.runners| && s.runners[r].phase.Checking? && s.runners[r].phase.next < |files|
  }

  /** A runner goes on to the next file, having seen the current one recorded. */
  function Advance(runner: Runner, k: nat, name: string): Runner {
    runner.(phase := Ready(k + 1), latest := Later(runner.latest, name))
  }

  function Next(files: seq<string>, s: State, l: Label): State
    requires Enabled(files, s, l)
  {
    match l
    case Join => s.(runners := s.runners + [NEW_RUNNER])
    case Created(r) => Put(s, r, s.runners[r].(phase := Listing))
    case Listed(r) =>
      Put(s, r, s.runners[r].(phase := Ready(0), recordedSet := (set name | name in s.recorded), latest := Latest(s.recorded)))
    case Skip(r) => Put(s, r, s.runners[r].(phase := Ready(s.runners[r].phase.next + 1)))
    case Send(r) =>
      var runner, k := s.runners[r], s.runners[r].phase.next;
      var late := runner.latest.Some? && Less(files[k], runner.latest.value);
      Put(s, r, runner.(phase := Waiting(k, |s.requests|),
                        outOfOrder := if late then runner.outOfOrder + [files[k]] else runner.outOfOrder))
        .(requests := s.requests + [Request(r, files[k], Pending)])
    case Commit(id) => Mark(s, id, Committed).(recorded := s.recorded + [s.requests[id].name])
    case Reject(id) => Mark(s, id, Rejected)
    case RespondOk(r) =>
      var runner, k := s.runners[r], s.runners[r].phase.next;
      var name := s.requests[runner.phase.request].name;
      Put(s, r, Advance(runner, k, name).(applied := runner.applied + [name], confirmed := runner.confirmed + {name}))
    case RespondFailed(r) => Put(s, r, s.runners[r].(phase := Checking(s.runners[r].phase.next, false)))
    case RespondUnknown(r) => Put(s, r, s.runners[r].(phase := Checking(s.runners[r].phase.next, true)))
    case Abort(r) => Put(s, r, s.runners[r].(phase := Failed))
    case FoundRecorded(r) =>
      var runner, k := s.runners[r], s.runners[r].phase.next;
      Put(s, r, Advance(runner, k, files[k]).(applied := if runner.phase.unknown then runner.applied + [files[k]] else runner.applied))
    case NotRecorded(r) => Put(s, r, s.runners[r].(phase := Failed))
    case ReadFails(r) => Put(s, r, s.runners[r].(phase := Failed))
    case Finish(r) => Put(s, r, s.runners[r].(phase := Done))
  }

  /** The labels can be followed from `s`, in order. */
  predicate CanRun(files: seq<string>, s: State, labels: seq<Label>)
    decreases |labels|
  {
    labels == [] || (Enabled(files, s, labels[0]) && CanRun(files, Next(files, s, labels[0]), labels[1..]))
  }

  function RunAll(files: seq<string>, s: State, labels: seq<Label>): State
    requires CanRun(files, s, labels)
    decreases |labels|
  {
    if labels == [] then s else RunAll(files, Next(files, s, labels[0]), labels[1..])
  }

  /** A database with some rows, before any runner starts. */
  function Start(recorded: seq<string>): State {
    State(recorded, [], [])
  }

  /* ----- What holds in every state ----- */

  predicate Distinct(names: seq<string>) {
    forall i, j :: 0 <= i < j < |names| ==> names[i] != names[j]
  }

  /** A recorded file has every earlier file recorded too. */
  ghost predicate IsPrefix(files: seq<string>, recorded: seq<string>) {
    forall i, j :: 0 <= i < j < |files| && files[j] in recorded ==> files[i] in recorded
  }

  ghost predicate RecordedBelow(files: seq<string>, recorded: seq<string>, k: nat) {
    k <= |files| && forall i :: 0 <= i < k ==> files[i] in recorded
  }

  /** How far a runner has got is backed by the records. */
  ghost predicate RunnerOk(files: seq<string>, s: State, runner: Runner, r: nat) {
    && (forall name :: name in runner.recordedSet ==> name in s.recorded)
    && (forall i :: 0 <= i < |runner.applied| ==> runner.applied[i] in s.recorded)
    && (forall name :: name in runner.confirmed ==> ConfirmedBy(s, r, name))
    && (match runner.phase
        case Ready(k) => RecordedBelow(files, s.recorded, k)
        case Waiting(k, id) =>
          k < |files| && RecordedBelow(files, s.recorded, k) && id < |s.requests|
          && s.requests[id].name == files[k] && s.requests[id].owner == r
        case Checking(k, _) => k < |files| && RecordedBelow(files, s.recorded, k)
        case Done => RecordedBelow(files, s.recorded, |files|)
        case _ => true)
  }

  /** Some request of the runner committed the file. */
  ghost predicate ConfirmedBy(s: State, r: nat, name: string) {
    exists id :: 0 <= id < |s.requests| && s.requests[id] == Request(r, name, Committed)
  }

  /** A request may only commit a file whose predecessors are recorded. */
  ghost predicate RequestOk(files: seq<string>, s: State, q: Request) {
    && (exists k :: 0 <= k < |files| && files[k] == q.name && RecordedBelow(files, s.recorded, k))
    && (q.status == Committed ==> q.name in s.recorded)
  }

  ghost predicate CommitsDistinct(s: State) {
    forall i, j :: 0 <= i < j < |s.requests| && s.requests[i].status == Committed && s.requests[j].status == Committed ==>
      s.requests[i].name != s.requests[j].name
  }

  ghost predicate Inv(files: seq<string>, s: State) {
    && Distinct(s.recorded)
    && IsPrefix(files, s.recorded)
    && CommitsDistinct(s)
    && (forall r :: 0 <= r < |s.runners| ==> RunnerOk(files, s, s.runners[r], r))
    && (forall id :: 0 <= id < |s.requests| ==> RequestOk(files, s, s.requests[id]))
  }

  /** The records only grow, and requests keep their owner and name and never lose a commit. */
  ghost predicate Grows(s: State, t: State) {
    && (forall name :: name in s.recorded ==> name in t.recorded)
    && |s.requests| <= |t.requests|
    && (forall id :: 0 <= id < |s.requests| ==>
          && t.requests[id].owner == s.requests[id].owner && t.requests[id].name == s.requests[id].name
          && (s.requests[id].status == Committed ==> t.requests[id].status == Committed))
  }

  lemma NextGrows(files: seq<string>, s: State, l: Label)
    requires Enabled(files, s, l)
    ensures Grows(s, Next(files, s, l))
  {
  }

  lemma RunnerStays(files: seq<string>, s: State, t: State, runner: Runner, r: nat)
    requires RunnerOk(files, s, runner, r) && Grows(s, t)
    ensures RunnerOk(files, t, runner, r)
  {
    forall name | name in runner.confirmed
      ensures ConfirmedBy(t, r, name)
    {
      var id :| 0 <= id < |s.requests| && s.requests[id] == Request(r, name, Committed);
      assert t.requests[id] == Request(r, name, Committed);
    }
  }

  lemma RequestStays(files: seq<string>, s: State, t: State, q: Request, p: Request)
    requires RequestOk(files, s, q) && Grows(s, t) && p.name == q.name && (p.status == Committed ==> p.name in t.recorded)
    ensures RequestOk(files, t, p)
  {
    var k :| 0 <= k < |files| && files[k] == q.name && RecordedBelow(files, s.recorded, k);
    assert RecordedBelow(files, t.recorded, k);
  }

  lemma CommitKeepsPrefix(files: seq<string>, recorded: seq<string>, k: nat)
    requires Sorted(files) && IsPrefix(files, recorded) && k < |files| && RecordedBelow(files, recorded, k)
    ensures IsPrefix(files, recorded + [files[k]])
  {
    var after := recorded + [files[k]];
    forall i, j | 0 <= i < j < |files| && files[j] in after
      ensures files[i] in after
    {
      if files[j] == files[k] {
        SortedDistinct(files, j, k);
      }
    }
  }

  lemma {:induction false} LessIrreflexive(a: string)
    ensures !Less(a, a)
  {
    if a != "" {
      LessIrreflexive(a[1..]);
    }
  }

  lemma SortedDistinct(files: seq<string>, i: nat, j: nat)
    requires Sorted(files) && i < |files| && j < |files| && files[i] == files[j]
    ensures i == j
  {
    LessIrreflexive(files[i]);
  }

  /** A step that leaves the requests and records alone and moves one runner. */
  lemma RunnerMoves(files: seq<string>, s: State, t: State, r: nat)
    requires Inv(files, s) && r < |s.runners| && r < |t.runners| && t == Put(s, r, t.runners[r])
    requires RunnerOk(files, t, t.runners[r], r)
    ensures Inv(files, t)
  {
    forall i | 0 <= i < |t.runners|
      ensures RunnerOk(files, t, t.runners[i], i)
    {
      if i != r {
        RunnerStays(files, s, t, s.runners[i], i);
      }
    }
    forall id | 0 <= id < |t.requests|
      ensures RequestOk(files, t, t.requests[id])
    {
      RequestStays(files, s, t, s.requests[id], t.requests[id]);
    }
  }

  lemma SendKeepsInv(files: seq<string>, s: State, r: nat)
    requires Inv(files, s) && Enabled(files, s, Send(r))
    ensures Inv(files, Next(files, s, Send(r)))
  {
    var t, k := Next(files, s, Send(r)), s.runners[r].phase.next;
    NextGrows(files, s, Send(r));
    forall i | 0 <= i < |t.runners|
      ensures RunnerOk(files, t, t.runners[i], i)
    {
      RunnerStays(files, s, t, s.runners[i], i);
    }
    forall id | 0 <= id < |t.requests|
      ensures RequestOk(files, t, t.requests[id])
    {
      if id < |s.requests| {
        RequestStays(files, s, t, s.requests[id], t.requests[id]);
      } else {
        assert files[k] == t.requests[id].name && RecordedBelow(files, t.recorded, k);
      }
    }
  }

  lemma RequestSettles(files: seq<string>, s: State, id: nat, commit: bool)
    requires Sorted(files) && Inv(files, s) && Enabled(files, s, if commit then Commit(id) else Reject(id))
    ensures Inv(files, Next(files, s, if commit then Commit(id) else Reject(id)))
  {
    var l := if commit then Commit(id) else Reject(id);
    var t := Next(files, s, l);
    NextGrows(files, s, l);
    if commit {
      var k :| 0 <= k < |files| && files[k] == s.requests[id].name && RecordedBelow(files, s.recorded, k);
      CommitKeepsPrefix(files, s.recorded, k);
    }
    forall i | 0 <= i < |t.runners|
      ensures RunnerOk(files, t, t.runners[i], i)
    {
      RunnerStays(files, s, t, s.runners[i], i);
    }
    forall q | 0 <= q < |t.requests|
      ensures RequestOk(files, t, t.requests[q])
    {
      RequestStays(files, s, t, s.requests[q], t.requests[q]);
    }
    forall i, j | 0 <= i < j < |t.requests| && t.requests[i].status == Committed && t.requests[j].status == Committed
      ensures t.requests[i].name != t.requests[j].name
    {
      assert RequestOk(files, s, s.requests[i]) && RequestOk(files, s, s.requests[j]);
    }
  }

  lemma JoinKeepsInv(files: seq<string>, s: State)
    requires Inv(files, s)
    ensures Inv(files, Next(files, s, Join))
  {
    var t := Next(files, s, Join);
    forall i | 0 <= i < |t.runners|
      ensures RunnerOk(files, t, t.runners[i], i)
    {
      if i < |s.runners| {
        RunnerStays(files, s, t, s.runners[i], i);
      }
    }
    forall id | 0 <= id < |t.requests|
      ensures RequestOk(files, t, t.requests[id])
    {
      RequestStays(files, s, t, s.requests[id], t.requests[id]);
    }
  }

  lemma RespondKeepsRunner(files: seq<string>, s: State, r: nat)
    requires Inv(files, s) && Enabled(files, s, RespondOk(r))
    ensures var t := Next(files, s, RespondOk(r)); RunnerOk(files, t, t.runners[r], r)
  {
    var t, runner := Next(files, s, RespondOk(r)), s.runners[r];
    var id := runner.phase.request;
    RunnerStays(files, s, t, runner, r);
    assert RequestOk(files, s, s.requests[id]);
    assert t.requests[id] == Request(r, s.requests[id].name, Committed);
    forall name | name in t.runners[r].confirmed
      ensures ConfirmedBy(t, r, name)
    {
    }
  }

  /** Every step keeps the invariant. */
  lemma NextKeepsInv(files: seq<string>, s: State, l: Label)
    requires Sorted(files) && Inv(files, s) && Enabled(files, s, l)
    ensures Inv(files, Next(files, s, l))
  {
    match l {
      case Join => JoinKeepsInv(files, s);
      case Send(r) => SendKeepsInv(files, s, r);
      case Commit(id) => RequestSettles(files, s, id, true);
      case Reject(id) => RequestSettles(files, s, id, false);
      case RespondOk(r) =>
        RespondKeepsRunner(files, s, r);
        RunnerMoves(files, s, Next(files, s, l), r);
      case Created(r) => OtherKeepsRunner(files, s, l, r);
      case Listed(r) => OtherKeepsRunner(files, s, l, r);
      case Skip(r) => OtherKeepsRunner(files, s, l, r);
      case RespondFailed(r) => OtherKeepsRunner(files, s, l, r);
      case RespondUnknown(r) => OtherKeepsRunner(files, s, l, r);
      case Abort(r) => OtherKeepsRunner(files, s, l, r);
      case FoundRecorded(r) => OtherKeepsRunner(files, s, l, r);
      case NotRecorded(r) => OtherKeepsRunner(files, s, l, r);
      case ReadFails(r) => OtherKeepsRunner(files, s, l, r);
      case Finish(r) => OtherKeepsRunner(files, s, l, r);
    }
  }

  predicate MovesRunner(l: Label, r: nat) {
    l in {Created(r), Listed(r), Skip(r), RespondFailed(r), RespondUnknown(r), Abort(r), FoundRecorded(r), NotRecorded(r),
          ReadFails(r), Finish(r)}
  }

  lemma OtherKeepsRunner(files: seq<string>, s: State, l: Label, r: nat)
    requires Inv(files, s) && Enabled(files, s, l) && MovesRunner(l, r)
    ensures Inv(files, Next(files, s, l))
  {
    var t := Next(files, s, l);
    RunnerStays(files, s, t, s.runners[r], r);
    assert forall name :: name in t.runners[r].confirmed ==> ConfirmedBy(t, r, name);
    RunnerMoves(files, s, t, r);
  }

  lemma {:induction false} RunKeepsInv(files: seq<string>, s: State, labels: seq<Label>)
    requires Sorted(files) && Inv(files, s) && CanRun(files, s, labels)
    ensures Inv(files, RunAll(files, s, labels))
    decreases |labels|
  {
    hide Inv, Enabled, Next;
    if labels != [] {
      NextKeepsInv(files, s, labels[0]);
      RunKeepsInv(files, Next(files, s, labels[0]), labels[1..]);
    }
  }

  /**
   * In every run of any number of runners: each file is recorded at most once, the recorded files stay a
   * prefix of the list, and a runner that has finished leaves every file recorded.
   */
  lemma MigrationSafety(files: seq<string>, recorded: seq<string>, labels: seq<Label>)
    requires Sorted(files) && Distinct(recorded) && IsPrefix(files, recorded)
    requires CanRun(files, Start(recorded), labels)
    ensures var s := RunAll(files, Start(recorded), labels);
            && Distinct(s.recorded)
            && IsPrefix(files, s.recorded)
            && (forall r :: 0 <= r < |s.runners| && s.runners[r].phase == Done ==>
                  forall i :: 0 <= i < |files| ==> files[i] in s.recorded)
            && (forall r, i :: 0 <= r < |s.runners| && 0 <= i < |s.runners[r].applied| ==> s.runners[r].applied[i] in s.recorded)
  {
    RunKeepsInv(files, Start(recorded), labels);
    var s := RunAll(files, Start(recorded), labels);
    assert forall r :: 0 <= r < |s.runners| ==> RunnerOk(files, s, s.runners[r], r);
  }

  /** A file is confirmed by a response to one runner at most. */
  lemma ConfirmedOnce(files: seq<string>, recorded: seq<string>, labels: seq<Label>, p: nat, q: nat, name: string)
    requires Sorted(files) && Distinct(recorded) && IsPrefix(files, recorded)
    requires CanRun(files, Start(recorded), labels)
    requires var s := RunAll(files, Start(recorded), labels);
             p < |s.runners| && q < |s.runners| && name in s.runners[p].confirmed && name in s.runners[q].confirmed
    ensures p == q
  {
    RunKeepsInv(files, Start(recorded), labels);
    var s := RunAll(files, Start(recorded), labels);
    assert RunnerOk(files, s, s.runners[p], p) && RunnerOk(files, s, s.runners[q], q);
    var i :| 0 <= i < |s.requests| && s.requests[i] == Request(p, name, Committed);
    var j :| 0 <= j < |s.requests| && s.requests[j] == Request(q, name, Committed);
  }

  /* ----- When the database starts with exactly the first files ----- */

  lemma {:induction false} LessAsymmetric(a: string, b: string)
    requires Less(a, b)
    ensures !Less(b, a)
  {
    if a != "" && a[0] == b[0] {
      LessAsymmetric(a[1..], b[1..]);
    }
  }

  lemma {:induction false} LatestOfPrefix(files: seq<string>, m: nat)
    requires Sorted(files) && m <= |files|
    ensures Latest(files[..m]) == if m == 0 then None else Some(files[m - 1])
  {
    if m > 0 {
      LatestOfPrefix(files, m - 1);
      assert files[..m][..m - 1] == files[..m - 1];
    }
  }

  /** What a runner has read: the first `m` files; it has never seen a file out of order. */
  ghost predicate ReadOk(files: seq<string>, s: State, runner: Runner, m: nat) {
    && m <= |files|
    && runner.outOfOrder == []
    && (forall i :: 0 <= i < |files| ==> (files[i] in runner.recordedSet <==> i < m))
    && (runner.phase.Ready? || runner.phase.Waiting? || runner.phase.Checking? ==>
          var k := Max(runner.phase.next, m);
          runner.latest == if k == 0 then None else if k <= |files| then Some(files[k - 1]) else None)
    && (runner.phase.Waiting? || runner.phase.Checking? ==> m <= runner.phase.next < |files|)
    && (runner.phase.Ready? ==> runner.phase.next <= |files|)
    && (runner.phase.Waiting? ==> runner.phase.request < |s.requests| && s.requests[runner.phase.request].name == files[runner.phase.next])
  }

  /** The records are the first `n` files, in order. */
  ghost predicate InOrder(files: seq<string>, s: State) {
    && (exists n: nat :: n <= |files| && s.recorded == files[..n])
    && (forall r :: 0 <= r < |s.runners| ==> s.runners[r].outOfOrder == [])
    && (forall r :: 0 <= r < |s.runners| ==>
         (s.runners[r].phase in {Creating, Listing, Failed, Done} || exists m: nat :: ReadOk(files, s, s.runners[r], m)))
  }

  lemma CommitIsNext(files: seq<string>, s: State, id: nat)
    requires Sorted(files) && Inv(files, s) && InOrder(files, s) && Enabled(files, s, Commit(id))
    ensures exists n: nat :: n <= |files| && Next(files, s, Commit(id)).recorded == files[..n]
  {
    var n: nat :| n <= |files| && s.recorded == files[..n];
    assert RequestOk(files, s, s.requests[id]);
    var k :| 0 <= k < |files| && files[k] == s.requests[id].name && RecordedBelow(files, s.recorded, k);
    if k > n {
      assert files[n] in files[..n];
      var j :| 0 <= j < n && files[j] == files[n];
      SortedDistinct(files, j, n);
    }
    assert k == n;
    assert files[..n] + [files[n]] == files[..n + 1];
  }

  lemma StepReadOk(files: seq<string>, s: State, l: Label, r: nat, m: nat)
    requires Sorted(files) && Enabled(files, s, l) && r < |s.runners| && ReadOk(files, s, s.runners[r], m)
    requires !(l == Listed(r) || l == Created(r)) && !s.runners[r].phase.Done?
    ensures var t := Next(files, s, l);
            t.runners[r].phase.Failed? || t.runners[r].phase.Done? || ReadOk(files, t, t.runners[r], m)
    ensures Next(files, s, l).runners[r].outOfOrder == []
  {
    NextGrows(files, s, l);
    if l == Send(r) {
      SendReadOk(files, s, r, m);
    } else if l == RespondOk(r) || l == FoundRecorded(r) {
      AdvanceReadOk(files, s, l, r, m);
    } else {
      hide Less, Later;
    }
  }

  lemma SendReadOk(files: seq<string>, s: State, r: nat, m: nat)
    requires Sorted(files) && Enabled(files, s, Send(r)) && ReadOk(files, s, s.runners[r], m)
    ensures var t := Next(files, s, Send(r)); ReadOk(files, t, t.runners[r], m)
  {
    hide Less;
    var k := s.runners[r].phase.next;
    assert m <= k;
    if k > 0 {
      assert Less(files[k - 1], files[k]);
      LessAsymmetric(files[k - 1], files[k]);
    }
  }

  lemma AdvanceReadOk(files: seq<string>, s: State, l: Label, r: nat, m: nat)
    requires Sorted(files) && Enabled(files, s, l) && r < |s.runners| && ReadOk(files, s, s.runners[r], m)
    requires l == RespondOk(r) || l == FoundRecorded(r)
    ensures var t := Next(files, s, l); ReadOk(files, t, t.runners[r], m)
  {
    hide Less;
    var k := s.runners[r].phase.next;
    if k > 0 {
      assert Less(files[k - 1], files[k]);
    }
  }

  lemma ListedReadOk(files: seq<string>, s: State, r: nat)
    requires Sorted(files) && InOrder(files, s) && Enabled(files, s, Listed(r))
    ensures exists m: nat :: ReadOk(files, Next(files, s, Listed(r)), Next(files, s, Listed(r)).runners[r], m)
  {
    hide Less, Latest;
    var t := Next(files, s, Listed(r));
    var m: nat :| m <= |files| && s.recorded == files[..m];
    LatestOfPrefix(files, m);
    forall i | 0 <= i < |files|
      ensures files[i] in t.runners[r].recordedSet <==> i < m
    {
      if files[i] in files[..m] {
        var j :| 0 <= j < m && files[j] == files[i];
        SortedDistinct(files, i, j);
      }
    }
    assert ReadOk(files, t, t.runners[r], m);
  }

  lemma NextKeepsOrder(files: seq<string>, s: State, l: Label)
    requires Sorted(files) && Inv(files, s) && InOrder(files, s) && Enabled(files, s, l)
    ensures InOrder(files, Next(files, s, l))
  {
    hide Inv, ReadOk, Latest, Less;
    var t := Next(files, s, l);
    if l.Commit? {
      CommitIsNext(files, s, l.id);
    }
    forall r | 0 <= r < |t.runners|
      ensures t.runners[r].outOfOrder == []
      ensures t.runners[r].phase in {Creating, Listing, Failed, Done} || exists m: nat :: ReadOk(files, t, t.runners[r], m)
    {
      if r < |s.runners| && !(s.runners[r].phase in {Creating, Listing, Failed, Done}) {
        var m: nat :| ReadOk(files, s, s.runners[r], m);
        StepReadOk(files, s, l, r, m);
      } else if l == Listed(r) {
        ListedReadOk(files, s, r);
      }
    }
  }

  lemma {:induction false} RunKeepsOrder(files: seq<string>, s: State, labels: seq<Label>)
    requires Sorted(files) && Inv(files, s) && InOrder(files, s) && CanRun(files, s, labels)
    ensures InOrder(files, RunAll(files, s, labels))
    decreases |labels|
  {
    hide Inv, InOrder, Enabled, Next;
    if labels != [] {
      NextKeepsInv(files, s, labels[0]);
      NextKeepsOrder(files, s, labels[0]);
      RunKeepsOrder(files, Next(files, s, labels[0]), labels[1..]);
    }
  }

  lemma FirstFilesArePrefix(files: seq<string>, n: nat)
    requires Sorted(files) && n <= |files|
    ensures Distinct(files[..n]) && IsPrefix(files, files[..n])
  {
    forall i, j | 0 <= i < j < n
      ensures files[i] != files[j]
    {
      if files[i] == files[j] {
        SortedDistinct(files, i, j);
      }
    }
    forall i, j | 0 <= i < j < |files| && files[j] in files[..n]
      ensures files[i] in files[..n]
    {
      var k :| 0 <= k < n && files[k] == files[j];
      SortedDistinct(files, k, j);
      assert files[..n][i] == files[i];
    }
  }

  /**
   * On a database that holds exactly the first files, every run commits the remaining files in lexical order
   * and no runner ever reports a file out of order.
   */
  lemma CommitsInOrder(files: seq<string>, n: nat, labels: seq<Label>)
    requires Sorted(files) && n <= |files| && CanRun(files, Start(files[..n]), labels)
    ensures var s := RunAll(files, Start(files[..n]), labels);
            && (exists m: nat :: n <= m <= |files| && s.recorded == files[..m])
            && forall r :: 0 <= r < |s.runners| ==> s.runners[r].outOfOrder == []
  {
    FirstFilesArePrefix(files, n);
    RunKeepsOrder(files, Start(files[..n]), labels);
    RecordsGrow(files, Start(files[..n]), labels);
  }

  lemma {:induction false} RecordsGrow(files: seq<string>, s: State, labels: seq<Label>)
    requires CanRun(files, s, labels)
    ensures |s.recorded| <= |RunAll(files, s, labels).recorded|
    decreases |labels|
  {
    if labels != [] {
      RecordsGrow(files, Next(files, s, labels[0]), labels[1..]);
    }
  }
}
