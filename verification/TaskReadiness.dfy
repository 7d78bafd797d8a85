/**
 Readiness of one Task for autonomous execution: the waterfall of evaluate_task, the failure scan of
 _repeated_failures, and the ordered list of ready Tasks (app/services/autonomous_execution_service.py).
 */
module TaskReadiness {
  import opened Wrappers
  import opened StableSort

  // The two audit events the failure scan looks at, oldest first in a log.
  datatype LaunchEvent = ExecutionFailed | BuilderLaunched

  const REPEATED_FAILURE_THRESHOLD := 3

  // Length of the whole trailing run of failures.
  function TrailingFailures(log: seq<LaunchEvent>): nat {
    if log == [] || log[|log| - 1] == BuilderLaunched then 0 else 1 + TrailingFailures(log[..|log| - 1])
  }

  // _repeated_failures: looks at the newest three events only.
  method RepeatedFailures(log: seq<LaunchEvent>) returns (count: nat)
    ensures count == if TrailingFailures(log) < REPEATED_FAILURE_THRESHOLD then TrailingFailures(log)
      else REPEATED_FAILURE_THRESHOLD
  {
    var n := if |log| < REPEATED_FAILURE_THRESHOLD then |log| else REPEATED_FAILURE_THRESHOLD;
    count := 0;
    assert log[..|log|] == log;
    while count < n
      invariant count <= n
      invariant TrailingFailures(log) == count + TrailingFailures(log[..|log| - count])
    {
      var rest := log[..|log| - count];
      if rest[|rest| - 1] == BuilderLaunched {
        return;
      }
      assert rest[..|rest| - 1] == log[..|log| - (count + 1)];
      count := count + 1;
    }
  }

  datatype Dependencies = DependenciesComplete | DependenciesWaiting | DependenciesReady

  // What evaluate_task reads about one Task; None for the repository means the Change has none.
  datatype Facts = Facts(
    eligibleType: bool, inChange: bool, cancelled: bool, dependencies: Dependencies,
    pendingHuman: bool, specGatePasses: bool, designUnmet: bool, testDesignUnmet: bool, planStale: bool,
    provider: Option<string>, roleValid: bool, liveSession: bool, log: seq<LaunchEvent>, repository: Option<nat>)

  datatype Readiness =
    | AutoReady(repository: nat, provider: string)
    | NotAutonomousTask | Complete | WaitingDependency | WaitingHuman | WaitingSpec | WaitingDesign
    | WaitingTestDesign | StalePlan | RoleAssignmentInvalid | AlreadyRunning | RepeatedFailureStop | ScopeBlocked

  function EvaluateTask(f: Facts): Readiness {
    if !f.eligibleType || !f.inChange || f.cancelled then NotAutonomousTask
    else if f.dependencies.DependenciesComplete? then Complete
    else if f.dependencies.DependenciesWaiting? then WaitingDependency
    else if f.pendingHuman then WaitingHuman
    else if !f.specGatePasses then WaitingSpec
    else if f.designUnmet then WaitingDesign
    else if f.testDesignUnmet then WaitingTestDesign
    else if f.planStale then StalePlan
    else if f.provider.None? || !f.roleValid then RoleAssignmentInvalid
    else if f.liveSession then AlreadyRunning
    else if TrailingFailures(f.log) >= REPEATED_FAILURE_THRESHOLD then RepeatedFailureStop
    else if f.repository.None? then ScopeBlocked
    else AutoReady(f.repository.value, f.provider.value)
  }

  // ---------------------------------------------------------------- what each verdict means

  // The newest three events are all failures.
  ghost predicate Stopped(log: seq<LaunchEvent>) {
    |log| >= 3 && log[|log| - 1] == log[|log| - 2] == log[|log| - 3] == ExecutionFailed
  }

  const CONDITIONS := 12

  // What a Task has to meet, in the order in which it is looked at.
  ghost predicate Met(f: Facts, i: nat) {
    match i
    case 0 => f.eligibleType && f.inChange && !f.cancelled
    case 1 => f.dependencies != DependenciesComplete
    case 2 => f.dependencies != DependenciesWaiting
    case 3 => !f.pendingHuman
    case 4 => f.specGatePasses
    case 5 => !f.designUnmet
    case 6 => !f.testDesignUnmet
    case 7 => !f.planStale
    case 8 => f.provider != None && f.roleValid
    case 9 => !f.liveSession
    case 10 => !Stopped(f.log)
    case _ => f.repository != None
  }

  // What is answered when that condition is the first that is not met.
  ghost function Refusal(i: nat): Readiness {
    match i
    case 0 => NotAutonomousTask
    case 1 => Complete
    case 2 => WaitingDependency
    case 3 => WaitingHuman
    case 4 => WaitingSpec
    case 5 => WaitingDesign
    case 6 => WaitingTestDesign
    case 7 => StalePlan
    case 8 => RoleAssignmentInvalid
    case 9 => AlreadyRunning
    case 10 => RepeatedFailureStop
    case _ => ScopeBlocked
  }

  ghost predicate AllMet(f: Facts) { forall i: nat :: i < CONDITIONS ==> Met(f, i) }

  ghost predicate FirstUnmet(f: Facts, n: nat) { !Met(f, n) && forall j: nat :: j < n ==> Met(f, j) }

  // Every condition, written out.
  ghost predicate Launchable(f: Facts) {
    && f.eligibleType && f.inChange && !f.cancelled && f.dependencies == DependenciesReady && !f.pendingHuman
    && f.specGatePasses && !f.designUnmet && !f.testDesignUnmet && !f.planStale
    && f.provider != None && f.roleValid && !f.liveSession && !Stopped(f.log) && f.repository != None
  }

  lemma {:induction false} StoppedIsStreak(log: seq<LaunchEvent>)
    ensures Stopped(log) <==> TrailingFailures(log) >= REPEATED_FAILURE_THRESHOLD
  {
    if |log| >= 3 {
      var a := log[..|log| - 1];
      var b := a[..|a| - 1];
      assert a[|a| - 1] == log[|log| - 2] && b[|b| - 1] == log[|log| - 3];
      assert TrailingFailures(b) == if b[|b| - 1] == BuilderLaunched then 0 else 1 + TrailingFailures(b[..|b| - 1]);
    } else {
      StreakLength(log);
    }
  }

  lemma {:induction false} StreakLength(log: seq<LaunchEvent>)
    ensures TrailingFailures(log) <= |log|
  {
    if log != [] { StreakLength(log[..|log| - 1]); }
  }

  // The first condition that is not met.
  lemma {:induction false} SomeUnmet(f: Facts) returns (n: nat)
    requires !AllMet(f)
    ensures n < CONDITIONS && FirstUnmet(f, n)
  {
    var k: nat :| k < CONDITIONS && !Met(f, k);
    n := 0;
    while Met(f, n)
      invariant n <= k && forall j: nat :: j < n ==> Met(f, j)
      decreases k - n
    {
      n := n + 1;
    }
  }

  lemma {:induction false} AllMetIsLaunchable(f: Facts)
    ensures AllMet(f) <==> Launchable(f)
  {
    if AllMet(f) {
      assert Met(f, 0) && Met(f, 1) && Met(f, 2) && Met(f, 3) && Met(f, 4) && Met(f, 5);
      assert Met(f, 6) && Met(f, 7) && Met(f, 8) && Met(f, 9) && Met(f, 10) && Met(f, 11);
    }
  }

  lemma {:induction false} UnmetDecides(f: Facts, n: nat)
    requires n < CONDITIONS && FirstUnmet(f, n)
    ensures EvaluateTask(f) == Refusal(n)
  {
    StoppedIsStreak(f.log);
    assert (n > 0 ==> Met(f, 0)) && (n > 1 ==> Met(f, 1)) && (n > 2 ==> Met(f, 2)) && (n > 3 ==> Met(f, 3));
    assert (n > 4 ==> Met(f, 4)) && (n > 5 ==> Met(f, 5)) && (n > 6 ==> Met(f, 6)) && (n > 7 ==> Met(f, 7));
    assert (n > 8 ==> Met(f, 8)) && (n > 9 ==> Met(f, 9)) && (n > 10 ==> Met(f, 10));
  }

  // MAIN: a Task is ready, with the repository of its Change and the default provider, if and only if it
  // meets every condition; and each other verdict is given if and only if its own condition is the first
  // that is not met.
  lemma {:induction false} VerdictExactly(f: Facts)
    ensures EvaluateTask(f).AutoReady? <==> Launchable(f)
    ensures Launchable(f) ==> EvaluateTask(f) == AutoReady(f.repository.value, f.provider.value)
    ensures forall i: nat :: i < CONDITIONS ==> (EvaluateTask(f) == Refusal(i) <==> FirstUnmet(f, i))
  {
    StoppedIsStreak(f.log);
    AllMetIsLaunchable(f);
    if !AllMet(f) {
      var n := SomeUnmet(f);
      UnmetDecides(f, n);
    }
  }

  // ---------------------------------------------------------------- the ordered ready list

  datatype Candidate = Candidate(task: nat, repository: nat, provider: string)

  // A ready Task with its sort key: dependency depth, then plan order.
  datatype Ranked = Ranked(candidate: Candidate, depth: nat, order: int)

  predicate RankedLe(a: Ranked, b: Ranked) {
    a.depth < b.depth || (a.depth == b.depth && a.order <= b.order)
  }

  type Rank = nat -> (nat, int)
  type Verdicts = nat -> Readiness

  // The ready ones among the first k Tasks.
  function ReadyRanked(tasks: seq<nat>, verdict: Verdicts, rank: Rank, k: nat): seq<Ranked>
    requires k <= |tasks|
  {
    if k == 0 then []
    else
      var before, t := ReadyRanked(tasks, verdict, rank, k - 1), tasks[k - 1];
      match verdict(t)
      case AutoReady(repository, provider) =>
        before + [Ranked(Candidate(t, repository, provider), rank(t).0, rank(t).1)]
      case _ => before
  }

  function Unranked(rs: seq<Ranked>): seq<Candidate> {
    seq(|rs|, i requires 0 <= i < |rs| => rs[i].candidate)
  }

  function ReadyCandidates(tasks: seq<nat>, verdict: Verdicts, rank: Rank): seq<Candidate> {
    Unranked(Sort(ReadyRanked(tasks, verdict, rank, |tasks|), RankedLe))
  }

  // list_auto_ready_tasks
  method ListAutoReadyTasks(tasks: seq<nat>, verdict: Verdicts, rank: Rank) returns (ready: seq<Candidate>)
    ensures ready == ReadyCandidates(tasks, verdict, rank)
  {
    var ranked: seq<Ranked> := [];
    for i := 0 to |tasks|
      invariant ranked == ReadyRanked(tasks, verdict, rank, i)
    {
      var t := tasks[i];
      match verdict(t)
      case AutoReady(repository, provider) =>
        ranked := ranked + [Ranked(Candidate(t, repository, provider), rank(t).0, rank(t).1)];
      case _ =>
    }
    ready := Unranked(Sort(ranked, RankedLe));
  }

  // ---------------------------------------------------------------- counting Tasks

  // The Tasks of the first k candidates.
  ghost function IdsUpTo(cs: seq<Candidate>, k: nat): multiset<nat>
    requires k <= |cs|
  {
    if k == 0 then multiset{} else IdsUpTo(cs, k - 1) + multiset{cs[k - 1].task}
  }

  ghost function TaskIds(cs: seq<Candidate>): multiset<nat> { IdsUpTo(cs, |cs|) }

  // The Tasks among the first k that are not ready.
  ghost function NotReady(tasks: seq<nat>, verdict: Verdicts, k: nat): multiset<nat>
    requires k <= |tasks|
  {
    if k == 0 then multiset{}
    else NotReady(tasks, verdict, k - 1) + if verdict(tasks[k - 1]).AutoReady? then multiset{}
      else multiset{tasks[k - 1]}
  }

  lemma {:induction false} IdsPrefix(a: seq<Candidate>, b: seq<Candidate>, k: nat)
    requires k <= |a| && k <= |b| && forall i :: 0 <= i < k ==> a[i] == b[i]
    ensures IdsUpTo(a, k) == IdsUpTo(b, k)
  {
    if k > 0 { IdsPrefix(a, b, k - 1); }
  }

  // One more Task on either side of a partition.
  lemma {:induction false} PutOne(a: multiset<nat>, b: multiset<nat>, whole: multiset<nat>, x: multiset<nat>)
    requires a + b == whole
    ensures (a + x) + b == whole + x && a + (b + x) == whole + x
  {
  }

  lemma {:induction false} IdsAppend(cs: seq<Candidate>, c: Candidate)
    ensures TaskIds(cs + [c]) == TaskIds(cs) + multiset{c.task}
  {
    IdsPrefix(cs + [c], cs, |cs|);
  }

  lemma {:induction false} IdsOfMultiset(a: seq<Candidate>, k: nat, t: nat)
    requires k <= |a|
    ensures IdsUpTo(a, k)[t] > 0 <==> exists i :: 0 <= i < k && a[i].task == t
  {
    if k > 0 { IdsOfMultiset(a, k - 1, t); }
  }

  lemma {:induction false} IdIn(cs: seq<Candidate>, t: nat)
    ensures t in TaskIds(cs) <==> exists c :: c in cs && c.task == t
  {
    IdsOfMultiset(cs, |cs|, t);
    if c :| c in cs && c.task == t {
      var i :| 0 <= i < |cs| && cs[i] == c;
    }
  }

  // ---------------------------------------------------------------- sorting keeps the Tasks

  // How a candidate came out of the readiness evaluation.
  ghost predicate ReadyFor(verdict: Verdicts, c: Candidate) {
    verdict(c.task) == AutoReady(c.repository, c.provider)
  }

  lemma {:induction false} InsertIds(s: seq<Ranked>, x: Ranked)
    ensures TaskIds(Unranked(Insert(s, x, RankedLe))) == TaskIds(Unranked(s)) + multiset{x.candidate.task}
  {
    if s == [] || RankedLe(s[|s| - 1], x) {
      assert Unranked(s + [x]) == Unranked(s) + [x.candidate];
      IdsAppend(Unranked(s), x.candidate);
    } else {
      var front, last := s[..|s| - 1], s[|s| - 1];
      InsertIds(front, x);
      assert Unranked(s) == Unranked(front) + [last.candidate];
      assert Unranked(Insert(front, x, RankedLe) + [last]) == Unranked(Insert(front, x, RankedLe)) + [last.candidate];
      IdsAppend(Unranked(front), last.candidate);
      IdsAppend(Unranked(Insert(front, x, RankedLe)), last.candidate);
    }
  }

  lemma {:induction false} SortIds(s: seq<Ranked>)
    ensures TaskIds(Unranked(Sort(s, RankedLe))) == TaskIds(Unranked(s))
  {
    if s != [] {
      var front, last := s[..|s| - 1], s[|s| - 1];
      SortIds(front);
      InsertIds(Sort(front, RankedLe), last);
      assert Unranked(s) == Unranked(front) + [last.candidate];
      IdsAppend(Unranked(front), last.candidate);
    }
  }

  // What holds after the first k Tasks.
  ghost predicate RankedOk(tasks: seq<nat>, verdict: Verdicts, rank: Rank, k: nat)
    requires k <= |tasks|
  {
    && TaskIds(Unranked(ReadyRanked(tasks, verdict, rank, k))) + NotReady(tasks, verdict, k) == multiset(tasks[..k])
    && forall r :: r in ReadyRanked(tasks, verdict, rank, k) ==> ReadyFor(verdict, r.candidate)
  }

  lemma {:induction false} RankOne(tasks: seq<nat>, verdict: Verdicts, rank: Rank, k: nat)
    requires k < |tasks| && RankedOk(tasks, verdict, rank, k)
    ensures RankedOk(tasks, verdict, rank, k + 1)
  {
    var before, rs := ReadyRanked(tasks, verdict, rank, k), ReadyRanked(tasks, verdict, rank, k + 1);
    assert tasks[..k + 1] == tasks[..k] + [tasks[k]];
    PutOne(TaskIds(Unranked(before)), NotReady(tasks, verdict, k), multiset(tasks[..k]), multiset{tasks[k]});
    if verdict(tasks[k]).AutoReady? {
      var c := rs[|rs| - 1].candidate;
      assert Unranked(rs) == Unranked(before) + [c];
      IdsAppend(Unranked(before), c);
    }
  }

  lemma {:induction false} RankedPartition(tasks: seq<nat>, verdict: Verdicts, rank: Rank, k: nat)
    requires k <= |tasks|
    ensures RankedOk(tasks, verdict, rank, k)
  {
    for i := 0 to k
      invariant RankedOk(tasks, verdict, rank, i)
    {
      RankOne(tasks, verdict, rank, i);
    }
  }

  // Sorting loses and invents nothing: ready and not-ready Tasks together are the given Tasks.
  lemma {:induction false} ReadyPartition(tasks: seq<nat>, verdict: Verdicts, rank: Rank)
    ensures TaskIds(ReadyCandidates(tasks, verdict, rank)) + NotReady(tasks, verdict, |tasks|) == multiset(tasks)
    ensures forall c :: c in ReadyCandidates(tasks, verdict, rank) ==> ReadyFor(verdict, c)
  {
    var rs := ReadyRanked(tasks, verdict, rank, |tasks|);
    RankedPartition(tasks, verdict, rank, |tasks|);
    assert tasks[..|tasks|] == tasks;
    SortIds(rs);
    SortPermutes(rs, RankedLe);
    forall c | c in ReadyCandidates(tasks, verdict, rank) ensures ReadyFor(verdict, c) {
      var i :| 0 <= i < |ReadyCandidates(tasks, verdict, rank)| && ReadyCandidates(tasks, verdict, rank)[i] == c;
      var r := Sort(rs, RankedLe)[i];
      assert r in multiset(Sort(rs, RankedLe));
    }
  }

  // Every ready Task is ranked, with its own rank, and nothing else is.
  lemma {:induction false} RankedAre(tasks: seq<nat>, verdict: Verdicts, rank: Rank, k: nat)
    requires k <= |tasks|
    ensures forall r :: r in ReadyRanked(tasks, verdict, rank, k) ==>
      r.candidate.task in tasks && ReadyFor(verdict, r.candidate) && rank(r.candidate.task) == (r.depth, r.order)
    ensures forall i :: 0 <= i < k && verdict(tasks[i]).AutoReady? ==>
      exists r :: r in ReadyRanked(tasks, verdict, rank, k) && r.candidate.task == tasks[i]
  {
    if k > 0 {
      RankedAre(tasks, verdict, rank, k - 1);
      var before, rs := ReadyRanked(tasks, verdict, rank, k - 1), ReadyRanked(tasks, verdict, rank, k);
      assert forall r :: r in before ==> r in rs;
      if verdict(tasks[k - 1]).AutoReady? { assert rs[|rs| - 1] in rs; }
    }
  }

  ghost predicate NoLater(a: (nat, int), b: (nat, int)) { a.0 < b.0 || (a.0 == b.0 && a.1 <= b.1) }

  lemma {:induction false} FirstIsLeast(ranked: seq<Ranked>, r: Ranked)
    requires r in ranked
    ensures Sort(ranked, RankedLe) != [] && RankedLe(Sort(ranked, RankedLe)[0], r)
  {
    var sorted := Sort(ranked, RankedLe);
    SortMembers(ranked, r, RankedLe);
    SortIsStable(ranked, RankedLe);
    var j :| 0 <= j < |sorted| && sorted[j] == r;
    assert j == 0 || RankedLe(sorted[0], sorted[j]);
  }

  // The first of the ready list: there is one if and only if some Task is ready, and no ready Task comes
  // before it by dependency depth and then plan order.
  lemma {:induction false} FirstReady(tasks: seq<nat>, verdict: Verdicts, rank: Rank)
    ensures var ready := ReadyCandidates(tasks, verdict, rank);
      && (ready == [] <==> forall t :: t in tasks ==> !verdict(t).AutoReady?)
      && (ready != [] ==>
           && ready[0].task in tasks && verdict(ready[0].task) == AutoReady(ready[0].repository, ready[0].provider)
           && forall t :: t in tasks && verdict(t).AutoReady? ==> NoLater(rank(ready[0].task), rank(t)))
  {
    var ranked, ready := ReadyRanked(tasks, verdict, rank, |tasks|), ReadyCandidates(tasks, verdict, rank);
    var sorted := Sort(ranked, RankedLe);
    RankedAre(tasks, verdict, rank, |tasks|);
    if ready != [] {
      assert sorted[0] in sorted;
      SortMembers(ranked, sorted[0], RankedLe);
      assert ReadyFor(verdict, sorted[0].candidate);
    }
    forall t | t in tasks && verdict(t).AutoReady? ensures ready != [] && NoLater(rank(ready[0].task), rank(t)) {
      var i :| 0 <= i < |tasks| && tasks[i] == t;
      var r :| r in ranked && r.candidate.task == t;
      FirstIsLeast(ranked, r);
    }
  }

  // The ready list is by dependency depth and then plan order, and keeps the order of the Tasks where
  // both are equal.
  lemma {:induction false} ReadyInOrder(tasks: seq<nat>, verdict: Verdicts, rank: Rank, i: nat, j: nat)
    requires i < j < |ReadyCandidates(tasks, verdict, rank)|
    ensures var ranked := ReadyRanked(tasks, verdict, rank, |tasks|);
      var sorted := Sort(ranked, RankedLe);
      && RankedLe(sorted[i], sorted[j])
      && ReadyCandidates(tasks, verdict, rank)[i] == sorted[i].candidate
      && forall y :: Tied(sorted, y, RankedLe) == Tied(ranked, y, RankedLe)
  {
    SortIsStable(ReadyRanked(tasks, verdict, rank, |tasks|), RankedLe);
  }
}
