/**
 Planning one execution wave (plan_execution_wave in app/services/execution_wave_service.py).
 */
module WavePlanning {
  import opened Wrappers
  import opened StableSort
  import opened TaskReadiness
  import opened CandidateSets

  datatype Policy = Policy(
    enabled: bool, autoStart: bool, maxBuilders: int,
    parallel: bool, repositorySerial: bool, providerCaps: map<string, int>)

  // Live session counts, read once for a plan.
  datatype Load = Load(change: nat, repository: nat -> nat, provider: string -> nat)

  datatype Plan = Disabled | Planned(selected: seq<Candidate>, deferred: seq<Deferral>)

  function ProjectRoom(policy: Policy, load: Load): nat {
    var cap := if policy.parallel then policy.maxBuilders else 1;
    if cap - load.change <= 0 then 0 else cap - load.change
  }

  function LimitsOf(policy: Policy, load: Load): Limits {
    Limits(ProjectRoom(policy, load), policy.providerCaps, load.provider)
  }

  predicate SerialBlocked(policy: Policy, load: Load, c: Candidate) {
    policy.repositorySerial && load.repository(c.repository) > 0
  }

  function Unblocked(policy: Policy, load: Load, cs: seq<Candidate>, k: nat): seq<Candidate>
    requires k <= |cs|
  {
    if k == 0 then []
    else Unblocked(policy, load, cs, k - 1) + if SerialBlocked(policy, load, cs[k - 1]) then [] else [cs[k - 1]]
  }

  function SerialDeferrals(policy: Policy, load: Load, cs: seq<Candidate>, k: nat): seq<Deferral>
    requires k <= |cs|
  {
    if k == 0 then []
    else
      SerialDeferrals(policy, load, cs, k - 1)
      + if SerialBlocked(policy, load, cs[k - 1]) then [Deferral(cs[k - 1].task, RepositorySerialExecution)] else []
  }

  function AllDeferred(cs: seq<Candidate>, k: nat): seq<Deferral>
    requires k <= |cs|
  {
    if k == 0 then [] else AllDeferred(cs, k - 1) + [Deferral(cs[k - 1].task, ProjectCapacityReached)]
  }

  function WaitingDeferrals(tasks: seq<nat>, verdict: Verdicts, k: nat): seq<Deferral>
    requires k <= |tasks|
  {
    if k == 0 then []
    else
      var t := tasks[k - 1];
      WaitingDeferrals(tasks, verdict, k - 1) + if verdict(t).AutoReady? then [] else [Deferral(t, Waiting(verdict(t)))]
  }

  // The ready candidates that no repository rule holds back, and the safe ones among them.
  function Open(policy: Policy, load: Load, ready: seq<Candidate>): seq<Candidate> {
    Unblocked(policy, load, ready, |ready|)
  }

  function SafeOnes(policy: Policy, load: Load, safe: Safety, ready: seq<Candidate>): seq<Candidate> {
    SafeSet(safe, Open(policy, load, ready), |Open(policy, load, ready)|)
  }

  function Selected(policy: Policy, load: Load, safe: Safety, ready: seq<Candidate>): seq<Candidate> {
    Taken(LimitsOf(policy, load), SafeOnes(policy, load, safe, ready), |SafeOnes(policy, load, safe, ready)|)
  }

  function ReadyDeferred(policy: Policy, load: Load, safe: Safety, ready: seq<Candidate>): seq<Deferral> {
    var open, safeOnes := Open(policy, load, ready), SafeOnes(policy, load, safe, ready);
    SerialDeferrals(policy, load, ready, |ready|) + UnsafeDeferrals(safe, open, |open|)
    + CapacityDeferrals(LimitsOf(policy, load), safeOnes, |safeOnes|)
  }

  // plan_execution_wave, over the Tasks of eligible type of one Change.
  function PlanWave(policy: Policy, load: Load, safe: Safety, tasks: seq<nat>, verdict: Verdicts, rank: Rank): Plan {
    if !policy.enabled then Disabled
    else
      var ready, waiting := ReadyCandidates(tasks, verdict, rank), WaitingDeferrals(tasks, verdict, |tasks|);
      if ProjectRoom(policy, load) == 0 then Planned([], waiting + AllDeferred(ready, |ready|))
      else Planned(Selected(policy, load, safe, ready), waiting + ReadyDeferred(policy, load, safe, ready))
  }

  method PlanExecutionWave(policy: Policy, load: Load, safe: Safety, tasks: seq<nat>, verdict: Verdicts, rank: Rank)
    returns (plan: Plan)
    ensures plan == PlanWave(policy, load, safe, tasks, verdict, rank)
  {
    if !policy.enabled {
      return Disabled;
    }
    var ready := ListAutoReadyTasks(tasks, verdict, rank);
    var waiting: seq<Deferral> := [];
    for i := 0 to |tasks|
      invariant waiting == WaitingDeferrals(tasks, verdict, i)
    {
      if !verdict(tasks[i]).AutoReady? {
        waiting := waiting + [Deferral(tasks[i], Waiting(verdict(tasks[i])))];
      }
    }
    var deferred: seq<Deferral> := [];
    var room := ProjectRoom(policy, load);
    if room <= 0 {
      for i := 0 to |ready|
        invariant deferred == AllDeferred(ready, i)
      {
        deferred := deferred + [Deferral(ready[i].task, ProjectCapacityReached)];
      }
      return Planned([], waiting + deferred);
    }
    var open: seq<Candidate> := [];
    for i := 0 to |ready|
      invariant deferred == SerialDeferrals(policy, load, ready, i)
      invariant open == Unblocked(policy, load, ready, i)
    {
      if SerialBlocked(policy, load, ready[i]) {
        deferred := deferred + [Deferral(ready[i].task, RepositorySerialExecution)];
      } else {
        open := open + [ready[i]];
      }
    }
    var safeOnes, unsafeOnes := EvaluateCandidateSet(safe, open);
    var selected, full := SelectWithinCapacity(LimitsOf(policy, load), safeOnes);
    plan := Planned(selected, waiting + (deferred + unsafeOnes + full));
  }

  // ---------------------------------------------------------------- every Task is placed once

  lemma {:induction false} SplitSerialOne(policy: Policy, load: Load, cs: seq<Candidate>, k: nat)
    requires k < |cs| && Partition(Unblocked(policy, load, cs, k), SerialDeferrals(policy, load, cs, k), IdsUpTo(cs, k))
    ensures Partition(Unblocked(policy, load, cs, k + 1), SerialDeferrals(policy, load, cs, k + 1), IdsUpTo(cs, k + 1))
  {
    var open, ds, c := Unblocked(policy, load, cs, k), SerialDeferrals(policy, load, cs, k), cs[k];
    PutOne(TaskIds(open), DeferredIds(ds), IdsUpTo(cs, k), multiset{c.task});
    if SerialBlocked(policy, load, c) {
      var d := Deferral(c.task, RepositorySerialExecution);
      DeferredAppend(ds, d);
      assert Unblocked(policy, load, cs, k + 1) == open && SerialDeferrals(policy, load, cs, k + 1) == ds + [d];
    } else {
      IdsAppend(open, c);
      assert Unblocked(policy, load, cs, k + 1) == open + [c] && SerialDeferrals(policy, load, cs, k + 1) == ds;
    }
  }

  lemma {:induction false} SplitSerial(policy: Policy, load: Load, cs: seq<Candidate>, k: nat)
    requires k <= |cs|
    ensures Partition(Unblocked(policy, load, cs, k), SerialDeferrals(policy, load, cs, k), IdsUpTo(cs, k))
  {
    for i := 0 to k
      invariant Partition(Unblocked(policy, load, cs, i), SerialDeferrals(policy, load, cs, i), IdsUpTo(cs, i))
    {
      SplitSerialOne(policy, load, cs, i);
    }
  }

  lemma {:induction false} AllDeferredIds(cs: seq<Candidate>, k: nat)
    requires k <= |cs|
    ensures DeferredIds(AllDeferred(cs, k)) == IdsUpTo(cs, k)
  {
    if k > 0 {
      AllDeferredIds(cs, k - 1);
      DeferredAppend(AllDeferred(cs, k - 1), Deferral(cs[k - 1].task, ProjectCapacityReached));
    }
  }

  lemma {:induction false} WaitingIds(tasks: seq<nat>, verdict: Verdicts, k: nat)
    requires k <= |tasks|
    ensures DeferredIds(WaitingDeferrals(tasks, verdict, k)) == NotReady(tasks, verdict, k)
  {
    if k > 0 {
      var ds, t := WaitingDeferrals(tasks, verdict, k - 1), tasks[k - 1];
      WaitingIds(tasks, verdict, k - 1);
      if verdict(t).AutoReady? {
        assert ds + [] == ds;
      } else {
        var d := Deferral(t, Waiting(verdict(t)));
        DeferredAppend(ds, d);
        assert WaitingDeferrals(tasks, verdict, k) == ds + [d];
      }
    }
  }

  lemma {:induction false} JoinThree(a: seq<Deferral>, b: seq<Deferral>, c: seq<Deferral>)
    ensures DeferredIds(a + b + c) == DeferredIds(a) + DeferredIds(b) + DeferredIds(c)
  {
    DeferredJoin(a, b);
    DeferredJoin(a + b, c);
  }

  lemma {:induction false} Regroup(
    taken: multiset<nat>, serial: multiset<nat>, unsafeOnes: multiset<nat>, full: multiset<nat>,
    safeOnes: multiset<nat>, open: multiset<nat>, ready: multiset<nat>)
    requires open + serial == ready && safeOnes + unsafeOnes == open && taken + full == safeOnes
    ensures taken + (serial + unsafeOnes + full) == ready
  {
  }

  lemma {:induction false} ReadyPlacedOnce(policy: Policy, load: Load, safe: Safety, ready: seq<Candidate>)
    ensures TaskIds(Selected(policy, load, safe, ready)) + DeferredIds(ReadyDeferred(policy, load, safe, ready)) ==
      TaskIds(ready)
  {
    var open, safeOnes := Open(policy, load, ready), SafeOnes(policy, load, safe, ready);
    var serial, unsafeOnes := SerialDeferrals(policy, load, ready, |ready|), UnsafeDeferrals(safe, open, |open|);
    var full := CapacityDeferrals(LimitsOf(policy, load), safeOnes, |safeOnes|);
    SplitSerial(policy, load, ready, |ready|);
    SplitSafe(safe, open, |open|);
    SplitCapacity(LimitsOf(policy, load), safeOnes, |safeOnes|);
    JoinThree(serial, unsafeOnes, full);
    Regroup(TaskIds(Selected(policy, load, safe, ready)), DeferredIds(serial), DeferredIds(unsafeOnes),
      DeferredIds(full),
            TaskIds(safeOnes), TaskIds(open), TaskIds(ready));
  }

  lemma {:induction false} JoinPlan(
    selected: seq<Candidate>, waiting: seq<Deferral>, rest: seq<Deferral>, ready: multiset<nat>, whole: multiset<nat>)
    requires TaskIds(selected) + DeferredIds(rest) == ready
    requires ready + DeferredIds(waiting) == whole
    ensures TaskIds(selected) + DeferredIds(waiting + rest) == whole
  {
    DeferredJoin(waiting, rest);
    var a, b, c := TaskIds(selected), DeferredIds(waiting), DeferredIds(rest);
    Reorder(a, b, c);
  }

  lemma {:induction false} Reorder(a: multiset<nat>, b: multiset<nat>, c: multiset<nat>)
    ensures a + (b + c) == a + c + b
  {
  }

  // MAIN: an enabled plan places every eligible Task exactly once, in selected or in deferred.
  lemma {:induction false} PlanPartitionsTasks(
    policy: Policy, load: Load, safe: Safety, tasks: seq<nat>, verdict: Verdicts, rank: Rank)
    requires policy.enabled
    ensures var plan := PlanWave(policy, load, safe, tasks, verdict, rank);
      plan.Planned? && TaskIds(plan.selected) + DeferredIds(plan.deferred) == multiset(tasks)
  {
    var ready, waiting := ReadyCandidates(tasks, verdict, rank), WaitingDeferrals(tasks, verdict, |tasks|);
    ReadyPartition(tasks, verdict, rank);
    WaitingIds(tasks, verdict, |tasks|);
    if ProjectRoom(policy, load) == 0 {
      AllDeferredIds(ready, |ready|);
      JoinPlan([], waiting, AllDeferred(ready, |ready|), TaskIds(ready), multiset(tasks));
    } else {
      ReadyPlacedOnce(policy, load, safe, ready);
      JoinPlan(Selected(policy, load, safe, ready), waiting, ReadyDeferred(policy, load, safe, ready), TaskIds(ready),
        multiset(tasks));
    }
  }

  // ---------------------------------------------------------------- deferrals are justified

  lemma {:induction false} OtherReasons(policy: Policy, load: Load, cs: seq<Candidate>, k: nat)
    requires k <= |cs|
    ensures forall d :: d in SerialDeferrals(policy, load, cs, k) ==> d.reason == RepositorySerialExecution
    ensures forall d :: d in AllDeferred(cs, k) ==> d.reason == ProjectCapacityReached
  {
    if k > 0 { OtherReasons(policy, load, cs, k - 1); }
  }

  lemma {:induction false} WaitingReasons(tasks: seq<nat>, verdict: Verdicts, k: nat)
    requires k <= |tasks|
    ensures forall d :: d in WaitingDeferrals(tasks, verdict, k) ==>
      d.reason == Waiting(verdict(d.task)) && !verdict(d.task).AutoReady?
  {
    if k > 0 { WaitingReasons(tasks, verdict, k - 1); }
  }

  // A safety deferral names a Task that is itself selected or deferred for capacity.
  ghost predicate SafetyJustified(safe: Safety, selected: seq<Candidate>, deferred: seq<Deferral>, d: Deferral) {
    d.reason.NotParallelSafe? ==>
      && !safe(d.task, d.reason.against)
      && (|| d.reason.against in TaskIds(selected)
          || exists e :: e in deferred && e.task == d.reason.against
                         && (e.reason.ProjectCapacityReached? || e.reason.ProviderCapacityReached?))
  }

  lemma {:induction false} UnsafePlaced(l: Limits, safe: Safety, open: seq<Candidate>, d: Deferral)
    requires d in UnsafeDeferrals(safe, open, |open|)
    ensures d.reason.NotParallelSafe?
    ensures var safeOnes := SafeSet(safe, open, |open|);
      SafetyJustified(safe, Taken(l, safeOnes, |safeOnes|), CapacityDeferrals(l, safeOnes, |safeOnes|), d)
  {
    var safeOnes := SafeSet(safe, open, |open|);
    var full := CapacityDeferrals(l, safeOnes, |safeOnes|);
    UnsafeDeferralsJustified(safe, open, |open|);
    CapacityDeferralsJustified(l, safeOnes, |safeOnes|);
    SplitCapacity(l, safeOnes, |safeOnes|);
    if d.reason.against !in TaskIds(Taken(l, safeOnes, |safeOnes|)) { DeferralOf(full, |full|, d.reason.against); }
  }

  // Whose deferral it is: a candidate's, blocked as the reason says.
  ghost predicate StemsFrom(policy: Policy, load: Load, cs: seq<Candidate>, d: Deferral) {
    exists c :: c in cs && Blocks(policy, load, c, d)
  }

  ghost predicate Blocks(policy: Policy, load: Load, c: Candidate, d: Deferral) {
    && c.task == d.task && !d.reason.Waiting?
    && (d.reason.RepositorySerialExecution? ==> SerialBlocked(policy, load, c))
    && (d.reason.ProviderCapacityReached? ==> c.provider == d.reason.provider)
  }

  lemma {:induction false} SimpleStems(policy: Policy, load: Load, cs: seq<Candidate>, k: nat, d: Deferral)
    requires k <= |cs| && (d in SerialDeferrals(policy, load, cs, k) || d in AllDeferred(cs, k))
    ensures StemsFrom(policy, load, cs, d)
  {
    assert cs[k - 1] in cs;
    if !Blocks(policy, load, cs[k - 1], d) { SimpleStems(policy, load, cs, k - 1, d); }
  }

  lemma {:induction false} UnsafeStems(
    policy: Policy, load: Load, safe: Safety, cs: seq<Candidate>, k: nat, d: Deferral)
    requires k <= |cs| && d in UnsafeDeferrals(safe, cs, k)
    ensures StemsFrom(policy, load, cs, d)
  {
    assert cs[k - 1] in cs;
    if !Blocks(policy, load, cs[k - 1], d) { UnsafeStems(policy, load, safe, cs, k - 1, d); }
  }

  lemma {:induction false} CapacityStems(policy: Policy, load: Load, l: Limits, cs: seq<Candidate>, k: nat, d: Deferral)
    requires k <= |cs| && d in CapacityDeferrals(l, cs, k)
    ensures StemsFrom(policy, load, cs, d)
  {
    assert cs[k - 1] in cs;
    if !Blocks(policy, load, cs[k - 1], d) { CapacityStems(policy, load, l, cs, k - 1, d); }
  }

  lemma {:induction false} StemsFromMore(
    policy: Policy, load: Load, cs: seq<Candidate>, all: seq<Candidate>, d: Deferral)
    requires StemsFrom(policy, load, cs, d) && forall c :: c in cs ==> c in all
    ensures StemsFrom(policy, load, all, d)
  {
    var c :| c in cs && Blocks(policy, load, c, d);
    assert c in all;
  }

  lemma {:induction false} ReadyDeferralStems(
    policy: Policy, load: Load, safe: Safety, ready: seq<Candidate>, d: Deferral)
    requires d in ReadyDeferred(policy, load, safe, ready)
    ensures StemsFrom(policy, load, ready, d)
  {
    var l, open, safeOnes := LimitsOf(policy, load), Open(policy, load, ready), SafeOnes(policy, load, safe, ready);
    UnblockedFrom(policy, load, ready, |ready|);
    SafeSetFrom(safe, open, |open|);
    if d in SerialDeferrals(policy, load, ready, |ready|) {
      SimpleStems(policy, load, ready, |ready|, d);
    } else if d in UnsafeDeferrals(safe, open, |open|) {
      UnsafeStems(policy, load, safe, open, |open|, d);
      StemsFromMore(policy, load, open, ready, d);
    } else {
      CapacityStems(policy, load, l, safeOnes, |safeOnes|, d);
      StemsFromMore(policy, load, safeOnes, ready, d);
    }
  }

  // A deferral is of a Task that waits for the reason given, or of a ready candidate.
  lemma {:induction false} DeferralStems(
    policy: Policy, load: Load, safe: Safety, tasks: seq<nat>, verdict: Verdicts, rank: Rank, d: Deferral)
    requires policy.enabled && d in PlanWave(policy, load, safe, tasks, verdict, rank).deferred
    ensures if d.reason.Waiting? then !verdict(d.task).AutoReady? && d.reason == Waiting(verdict(d.task))
      else exists c :: ReadyFor(verdict, c) && Blocks(policy, load, c, d)
  {
    var ready := ReadyCandidates(tasks, verdict, rank);
    ReadyPartition(tasks, verdict, rank);
    if d in WaitingDeferrals(tasks, verdict, |tasks|) {
      WaitingReasons(tasks, verdict, |tasks|);
    } else {
      if ProjectRoom(policy, load) == 0 {
        SimpleStems(policy, load, ready, |ready|, d);
      } else {
        ReadyDeferralStems(policy, load, safe, ready, d);
      }
      var c :| c in ready && Blocks(policy, load, c, d);
      assert ReadyFor(verdict, c);
    }
  }

  lemma {:induction false} CapacityAndSafety(
    policy: Policy, load: Load, safe: Safety, tasks: seq<nat>, verdict: Verdicts, rank: Rank, d: Deferral)
    requires policy.enabled
    requires d in PlanWave(policy, load, safe, tasks, verdict, rank).deferred
    ensures var plan := PlanWave(policy, load, safe, tasks, verdict, rank);
      && CapacityJustified(LimitsOf(policy, load), plan.selected, d)
      && SafetyJustified(safe, plan.selected, plan.deferred, d)
  {
    var plan := PlanWave(policy, load, safe, tasks, verdict, rank);
    var ready := ReadyCandidates(tasks, verdict, rank);
    OtherReasons(policy, load, ready, |ready|);
    WaitingReasons(tasks, verdict, |tasks|);
    if ProjectRoom(policy, load) > 0 {
      var l, open, safeOnes := LimitsOf(policy, load), Open(policy, load, ready), SafeOnes(policy, load, safe, ready);
      var full := CapacityDeferrals(l, safeOnes, |safeOnes|);
      CapacityDeferralsJustified(l, safeOnes, |safeOnes|);
      if d in UnsafeDeferrals(safe, open, |open|) {
        UnsafePlaced(l, safe, open, d);
        assert forall e :: e in full ==> e in plan.deferred;
      }
    }
  }

  // The sessions the Change may have in a wave: the configured number, or one with parallel execution off.
  ghost function WaveCap(policy: Policy): int { if policy.parallel then policy.maxBuilders else 1 }

  // Why a Task was deferred, in terms of the final selection.
  ghost predicate Justified(
    policy: Policy, load: Load, safe: Safety, verdict: Verdicts, selected: seq<Candidate>, deferred: seq<Deferral>,
    d: Deferral) {
    match d.reason
    case Waiting(readiness) => readiness == verdict(d.task) && !readiness.AutoReady?
    case ProjectCapacityReached => verdict(d.task).AutoReady? && load.change + |selected| >= WaveCap(policy)
    case RepositorySerialExecution =>
      verdict(d.task).AutoReady? && policy.repositorySerial && load.repository(verdict(d.task).repository) > 0
    case NotParallelSafe(against) =>
      verdict(d.task).AutoReady? && !safe(d.task, against) && SafetyJustified(safe, selected, deferred, d)
    case ProviderCapacityReached(p) =>
      && verdict(d.task).AutoReady? && verdict(d.task).provider == p && p in policy.providerCaps
      && load.provider(p) + AllProviders(selected)[p] >= policy.providerCaps[p]
  }

  // MAIN: every deferral is justified: a Task waits exactly for the verdict it got; a ready one for room that
  // the final selection has used up, for a serial repository that is busy, or for a Task that is itself
  // selected or deferred for capacity.
  lemma {:induction false} PlanJustifiesDeferrals(
    policy: Policy, load: Load, safe: Safety, tasks: seq<nat>, verdict: Verdicts, rank: Rank, d: Deferral)
    requires policy.enabled
    requires d in PlanWave(policy, load, safe, tasks, verdict, rank).deferred
    ensures var plan := PlanWave(policy, load, safe, tasks, verdict, rank);
      Justified(policy, load, safe, verdict, plan.selected, plan.deferred, d)
  {
    DeferralStems(policy, load, safe, tasks, verdict, rank, d);
    CapacityAndSafety(policy, load, safe, tasks, verdict, rank, d);
  }

  // ---------------------------------------------------------------- what a wave may launch

  lemma {:induction false} UnblockedFrom(policy: Policy, load: Load, cs: seq<Candidate>, k: nat)
    requires k <= |cs|
    ensures forall c :: c in Unblocked(policy, load, cs, k) ==> c in cs && !SerialBlocked(policy, load, c)
  {
    if k > 0 { UnblockedFrom(policy, load, cs, k - 1); }
  }

  lemma {:induction false} SelectionIsBest(
    policy: Policy, load: Load, safe: Safety, tasks: seq<nat>, verdict: Verdicts, rank: Rank)
    requires policy.enabled
    ensures var plan, safeOnes := PlanWave(policy, load, safe, tasks, verdict, rank),
      SafeOnes(policy, load, safe, ReadyCandidates(tasks, verdict, rank));
      && (forall c :: c in plan.selected ==> ReadyFor(verdict, c) && !SerialBlocked(policy, load, c) && c in safeOnes)
      && PairwiseSafe(safe, safeOnes)
      && Feasible(LimitsOf(policy, load), plan.selected)
      && forall s: seq<Candidate> ::
           AllProviders(s) <= AllProviders(safeOnes) && Feasible(LimitsOf(policy, load), s) ==> |s| <= |plan.selected|
  {
    var l, ready := LimitsOf(policy, load), ReadyCandidates(tasks, verdict, rank);
    var open, safeOnes := Open(policy, load, ready), SafeOnes(policy, load, safe, ready);
    ReadyPartition(tasks, verdict, rank);
    UnblockedFrom(policy, load, ready, |ready|);
    SafeSetFrom(safe, open, |open|);
    SafeSetIsSafe(safe, open, |open|);
    TakenFrom(l, safeOnes, |safeOnes|);
    TakenIsOptimal(l, safeOnes);
    if l.room == 0 { assert Taken(l, safeOnes, |safeOnes|) == []; }
  }

  // With the sessions that are live the selection stays within the cap of the Change and the cap of every
  // provider it uses.
  ghost predicate WithinCaps(policy: Policy, load: Load, s: seq<Candidate>) {
    && (s != [] ==> load.change + |s| <= WaveCap(policy))
    && forall p :: p in policy.providerCaps && AllProviders(s)[p] > 0 ==>
         load.provider(p) + AllProviders(s)[p] <= policy.providerCaps[p]
  }

  lemma {:induction false} LimitsAreCaps(policy: Policy, load: Load, s: seq<Candidate>)
    ensures Feasible(LimitsOf(policy, load), s) <==> WithinCaps(policy, load, s)
  {
  }

  // MAIN: the selection of a plan is ready, not held back by a busy serial repository, pairwise safe, within
  // every cap, and as large as any selection of the safe candidates that stays within the caps.
  lemma {:induction false} PlanSelectsWell(
    policy: Policy, load: Load, safe: Safety, tasks: seq<nat>, verdict: Verdicts, rank: Rank)
    requires policy.enabled
    ensures var plan, safeOnes := PlanWave(policy, load, safe, tasks, verdict, rank),
      SafeOnes(policy, load, safe, ReadyCandidates(tasks, verdict, rank));
      && (forall c :: c in plan.selected ==>
           && verdict(c.task) == AutoReady(c.repository, c.provider) && c in safeOnes
           && !(policy.repositorySerial && load.repository(c.repository) > 0))
      && (forall i, j :: 0 <= i < j < |safeOnes| ==> safe(safeOnes[j].task, safeOnes[i].task))
      && WithinCaps(policy, load, plan.selected)
      && forall s: seq<Candidate> ::
           AllProviders(s) <= AllProviders(safeOnes) && WithinCaps(policy, load, s) ==> |s| <= |plan.selected|
  {
    var plan := PlanWave(policy, load, safe, tasks, verdict, rank);
    SelectionIsBest(policy, load, safe, tasks, verdict, rank);
    LimitsAreCaps(policy, load, plan.selected);
    forall c | c in plan.selected ensures verdict(c.task) == AutoReady(c.repository, c.provider) {
      assert ReadyFor(verdict, c);
    }
    forall s: seq<Candidate> |
      AllProviders(s) <= AllProviders(SafeOnes(policy, load, safe, ReadyCandidates(tasks, verdict, rank)))
      && WithinCaps(policy, load, s)
      ensures |s| <= |plan.selected|
    {
      LimitsAreCaps(policy, load, s);
    }
  }

  // ---------------------------------------------------------------- one repository, one provider

  // The repository comes from the Change and the provider from the installation, so every ready Task of
  // one Change has the same ones.
  ghost predicate ReadyAlike(verdict: Verdicts, repository: nat, provider: string) {
    forall t :: verdict(t).AutoReady? ==> verdict(t) == AutoReady(repository, provider)
  }

  ghost predicate Uniform(ready: seq<Candidate>) {
    forall i :: 0 <= i < |ready| ==>
      ready[i].repository == ready[0].repository && ready[i].provider == ready[0].provider
  }

  ghost predicate OneProvider(cs: seq<Candidate>, p: string) { forall i :: 0 <= i < |cs| ==> cs[i].provider == p }

  lemma {:induction false} ReadyIsUniform(
    tasks: seq<nat>, verdict: Verdicts, rank: Rank, repository: nat, provider: string)
    requires ReadyAlike(verdict, repository, provider)
    ensures Uniform(ReadyCandidates(tasks, verdict, rank)) &&
      OneProvider(ReadyCandidates(tasks, verdict, rank), provider)
  {
    var ready := ReadyCandidates(tasks, verdict, rank);
    ReadyPartition(tasks, verdict, rank);
    forall i | 0 <= i < |ready| ensures ready[i].repository == repository && ready[i].provider == provider {
      assert ready[i] in ready;
      assert ReadyFor(verdict, ready[i]);
    }
  }

  // How many of n candidates of one provider a selection takes.
  ghost function SelectionSize(l: Limits, p: string, n: nat): nat {
    if l.room < Room(l, p, n) then l.room else Room(l, p, n)
  }

  lemma {:induction false} OneProviderCount(cs: seq<Candidate>, p: string, k: nat)
    requires k <= |cs| && OneProvider(cs, p)
    ensures Providers(cs, k)[p] == k && forall q :: q != p ==> Providers(cs, k)[q] == 0
  {
    if k > 0 { OneProviderCount(cs, p, k - 1); }
  }

  // With k candidates seen, the next one is taken exactly when the size grows.
  lemma {:induction false} SizeGrows(l: Limits, p: string, k: nat)
    ensures var n := SelectionSize(l, p, k);
      && n <= k
      && SelectionSize(l, p, k + 1) == (if n < l.room && !AtCap(l, p, n) then k + 1 else n)
      && (n < l.room && !AtCap(l, p, n) ==> n == k)
  {
  }

  // With the first n candidates of one provider taken, another one is taken exactly when there is room.
  lemma {:induction false} TakeNext(l: Limits, cs: seq<Candidate>, p: string, n: nat, c: Candidate)
    requires n <= |cs| && OneProvider(cs, p) && c.provider == p
    ensures TakeOne(l, cs[..n], c) == if n < l.room && !AtCap(l, p, n) then cs[..n] + [c] else cs[..n]
  {
    OneProviderCount(cs[..n], p, n);
  }

  lemma {:induction false} TakenIsPrefixOne(l: Limits, cs: seq<Candidate>, p: string, k: nat)
    requires k < |cs| && OneProvider(cs, p)
    requires Taken(l, cs, k) == cs[..SelectionSize(l, p, k)]
    ensures Taken(l, cs, k + 1) == cs[..SelectionSize(l, p, k + 1)]
  {
    SizeGrows(l, p, k);
    TakeNext(l, cs, p, SelectionSize(l, p, k), cs[k]);
    assert cs[..k] + [cs[k]] == cs[..k + 1];
  }

  lemma {:induction false} TakenIsPrefix(l: Limits, cs: seq<Candidate>, p: string)
    requires OneProvider(cs, p)
    ensures Taken(l, cs, |cs|) == cs[..SelectionSize(l, p, |cs|)]
  {
    for i := 0 to |cs|
      invariant Taken(l, cs, i) == cs[..SelectionSize(l, p, i)]
    {
      TakenIsPrefixOne(l, cs, p, i);
    }
  }

  lemma {:induction false} IdsContain(cs: seq<Candidate>, k: nat, i: nat)
    requires i < k <= |cs|
    ensures cs[i].task in IdsUpTo(cs, k)
  {
    IdsOfMultiset(cs, k, cs[i].task);
  }

  // Of two candidates with the same Task, both are counted.
  lemma {:induction false} IdsTwice(cs: seq<Candidate>, i: nat, j: nat)
    requires i < j < |cs| && cs[i].task == cs[j].task
    ensures TaskIds(cs)[cs[i].task] >= 2
  {
    IdsContain(cs, j, i);
    IdsGrow(cs, j + 1, |cs|, cs[i].task);
  }

  lemma {:induction false} IdsGrow(cs: seq<Candidate>, k: nat, m: nat, t: nat)
    requires k <= m <= |cs|
    ensures IdsUpTo(cs, k)[t] <= IdsUpTo(cs, m)[t]
  {
    if k < m { IdsGrow(cs, k, m - 1, t); }
  }

  // A Task of the safe set is outside its first n members exactly when it stands at n or later.
  lemma {:induction false} OutsidePrefix(cs: seq<Candidate>, n: nat, t: nat)
    requires n <= |cs| && t in TaskIds(cs) && TaskIds(cs)[t] <= 1
    ensures t !in TaskIds(cs[..n]) <==> exists i :: n <= i < |cs| && cs[i].task == t
  {
    IdsOfMultiset(cs, |cs|, t);
    IdsOfMultiset(cs[..n], n, t);
    forall i, j | 0 <= i < n <= j < |cs| ensures !(cs[i].task == t && cs[j].task == t) {
      if cs[i].task == t && cs[j].task == t { IdsTwice(cs, i, j); }
    }
  }

  // A selection that takes fewer than all candidates of the one provider is as large as any that fits.
  lemma {:induction false} SelectionIsFull(l: Limits, p: string, n: nat, cs: seq<Candidate>, s: seq<Candidate>)
    requires OneProvider(cs, p) && SelectionSize(l, p, n) < n
    requires AllProviders(s) <= AllProviders(cs) && Feasible(l, s)
    ensures |s| <= SelectionSize(l, p, n)
  {
    var m := AllProviders(s);
    OneProviderCount(cs, p, |cs|);
    ProvidersSize(s, |s|);
    forall q | q != p ensures m[q] == 0 { assert m[q] <= AllProviders(cs)[q]; }
    assert m == multiset{}[p := m[p]];
  }

  // Everything about the safety deferrals of one plan: the selection is the beginning of the safe set;
  // a deferral names a Task outside the selection exactly when that Task stands later in the safe set;
  // and then the wave is as large as any selection of the ready Tasks that stays within the rooms.
  ghost predicate SafetyDeferralExact(
    l: Limits, p: string, ready: seq<Candidate>, safeOnes: seq<Candidate>, selected: seq<Candidate>, d: Deferral) {
    var n := SelectionSize(l, p, |safeOnes|);
    && n <= |safeOnes| && selected == safeOnes[..n]
    && d.reason.NotParallelSafe?
    && (d.reason.against !in TaskIds(selected) <==>
      exists i :: n <= i < |safeOnes| && safeOnes[i].task == d.reason.against)
    && (d.reason.against !in TaskIds(selected) ==>
         forall s: seq<Candidate> :: AllProviders(s) <= AllProviders(ready) && Feasible(l, s) ==> |s| <= |selected|)
  }

  lemma {:induction false} SafetyDeferralIsExact(
    policy: Policy, load: Load, safe: Safety, ready: seq<Candidate>, p: string, d: Deferral)
    requires OneProvider(ready, p) && forall t :: TaskIds(ready)[t] <= 1
    requires d in UnsafeDeferrals(safe, Open(policy, load, ready), |Open(policy, load, ready)|)
    ensures SafetyDeferralExact(LimitsOf(policy, load), p, ready, SafeOnes(policy, load, safe, ready),
      Selected(policy, load, safe, ready), d)
  {
    var l, open, safeOnes := LimitsOf(policy, load), Open(policy, load, ready), SafeOnes(policy, load, safe, ready);
    var n := SelectionSize(l, p, |safeOnes|);
    UnblockedFrom(policy, load, ready, |ready|);
    SafeSetFrom(safe, open, |open|);
    forall i | 0 <= i < |safeOnes| ensures safeOnes[i].provider == p { assert safeOnes[i] in safeOnes; }
    TakenIsPrefix(l, safeOnes, p);
    UnsafeDeferralsJustified(safe, open, |open|);
    SplitSerial(policy, load, ready, |ready|);
    SplitSafe(safe, open, |open|);
    var t := d.reason.against;
    assert TaskIds(safeOnes)[t] <= TaskIds(open)[t] <= TaskIds(ready)[t];
    OutsidePrefix(safeOnes, n, t);
    if t !in TaskIds(safeOnes[..n]) {
      forall s: seq<Candidate> | AllProviders(s) <= AllProviders(ready) && Feasible(l, s) ensures |s| <= n {
        SelectionIsFull(l, p, |safeOnes|, ready, s);
      }
    }
  }

  lemma {:induction false} SafetyDeferralOrigin(
    policy: Policy, load: Load, safe: Safety, tasks: seq<nat>, verdict: Verdicts, rank: Rank, d: Deferral)
    requires policy.enabled && d.reason.NotParallelSafe?
    requires d in PlanWave(policy, load, safe, tasks, verdict, rank).deferred
    ensures var ready := ReadyCandidates(tasks, verdict, rank);
      d in UnsafeDeferrals(safe, Open(policy, load, ready), |Open(policy, load, ready)|)
    ensures ProjectRoom(policy, load) > 0
  {
    var ready := ReadyCandidates(tasks, verdict, rank);
    OtherReasons(policy, load, ready, |ready|);
    WaitingReasons(tasks, verdict, |tasks|);
    CapacityDeferralsJustified(LimitsOf(policy, load), SafeOnes(policy, load, safe, ready),
      |SafeOnes(policy, load, safe, ready)|);
  }

  // MAIN: a safety deferral of a plan names a Task outside the selection if and only if that Task stands
  // in the safe set behind the selected ones; and such a deferral never makes the wave smaller.
  lemma {:induction false} PlanSafetyDeferrals(
    policy: Policy, load: Load, safe: Safety, tasks: seq<nat>, verdict: Verdicts, rank: Rank,
    repository: nat, provider: string, d: Deferral)
    requires policy.enabled && ReadyAlike(verdict, repository, provider) && forall t :: multiset(tasks)[t] <= 1
    requires d in PlanWave(policy, load, safe, tasks, verdict, rank).deferred && d.reason.NotParallelSafe?
    ensures var ready := ReadyCandidates(tasks, verdict, rank);
      SafetyDeferralExact(LimitsOf(policy, load), provider, ready, SafeOnes(policy, load, safe, ready),
                          PlanWave(policy, load, safe, tasks, verdict, rank).selected, d)
  {
    var ready := ReadyCandidates(tasks, verdict, rank);
    ReadyIsUniform(tasks, verdict, rank, repository, provider);
    ReadyPartition(tasks, verdict, rank);
    forall t ensures TaskIds(ready)[t] <= 1 { assert TaskIds(ready)[t] <= multiset(tasks)[t]; }
    SafetyDeferralOrigin(policy, load, safe, tasks, verdict, rank, d);
    SafetyDeferralIsExact(policy, load, safe, ready, provider, d);
  }

  // Such a deferral exists: of three ready Tasks with room for one, Task 1 is selected, Task 2 waits for
  // capacity, and Task 3 is deferred against Task 2.
  ghost function OneByOne(): Policy { Policy(true, true, 1, true, false, map[]) }

  ghost function AllReady(): Verdicts { (t: nat) => AutoReady(9, "codex") }

  ghost function ById(): Rank { (t: nat) => (0, t) }

  lemma {:induction false} ThreeReady()
    ensures ReadyCandidates([1, 2, 3], AllReady(), ById()) ==
      [Candidate(1, 9, "codex"), Candidate(2, 9, "codex"), Candidate(3, 9, "codex")]
  {
    var tasks, verdict, rank := [1, 2, 3], AllReady(), ById();
    var a, b, c := Ranked(Candidate(1, 9, "codex"), 0, 1), Ranked(Candidate(2, 9, "codex"), 0, 2),
      Ranked(Candidate(3, 9, "codex"), 0, 3);
    assert ReadyRanked(tasks, verdict, rank, 0) == [];
    assert ReadyRanked(tasks, verdict, rank, 1) == [a];
    assert ReadyRanked(tasks, verdict, rank, 2) == [a, b];
    assert ReadyRanked(tasks, verdict, rank, 3) == [a, b, c];
    SortedStays([a, b, c], RankedLe);
  }

  lemma {:induction false} NoSerialRule(policy: Policy, load: Load, cs: seq<Candidate>, k: nat)
    requires k <= |cs| && !policy.repositorySerial
    ensures Unblocked(policy, load, cs, k) == cs[..k] && SerialDeferrals(policy, load, cs, k) == []
  {
    if k > 0 { NoSerialRule(policy, load, cs, k - 1); }
  }

  lemma {:induction false} ThirdIsUnsafe(safe: Safety, a: Candidate, b: Candidate, c: Candidate)
    requires safe(b.task, a.task) && safe(c.task, a.task) && !safe(c.task, b.task)
    ensures SafeSet(safe, [a, b, c], 3) == [a, b]
    ensures UnsafeDeferrals(safe, [a, b, c], 3) == [Deferral(c.task, NotParallelSafe(b.task))]
  {
    var ready := [a, b, c];
    assert SafeSet(safe, ready, 1) == [a] && UnsafeDeferrals(safe, ready, 1) == [];
    assert FirstConflict(safe, b, [a], 0) == None;
    assert SafeSet(safe, ready, 2) == [a, b] && UnsafeDeferrals(safe, ready, 2) == [];
    assert FirstConflict(safe, c, [a, b], 1) == Some(b.task);
  }

  lemma {:induction false} SecondWaits(l: Limits, a: Candidate, b: Candidate)
    requires l.room == 1 && l.caps == map[]
    ensures Taken(l, [a, b], 2) == [a] && CapacityDeferrals(l, [a, b], 2) == [Deferral(b.task, ProjectCapacityReached)]
  {
    assert Taken(l, [a, b], 0) == [] && CapacityDeferrals(l, [a, b], 0) == [];
    assert Decide(l, [], a) == Take && Decide(l, [a], b) == ProjectFull;
    assert Taken(l, [a, b], 1) == [a] && CapacityDeferrals(l, [a, b], 1) == [];
  }

  lemma {:induction false} SafetyDeferralAgainstUnselected(safe: Safety, load: Load)
    requires safe(2, 1) && safe(3, 1) && !safe(3, 2) && load.change == 0
    ensures PlanWave(OneByOne(), load, safe, [1, 2, 3], AllReady(), ById())
         == Planned([Candidate(1, 9, "codex")], [Deferral(3, NotParallelSafe(2)), Deferral(2, ProjectCapacityReached)])
  {
    var a, b, c := Candidate(1, 9, "codex"), Candidate(2, 9, "codex"), Candidate(3, 9, "codex");
    ThreeReady();
    assert WaitingDeferrals([1, 2, 3], AllReady(), 3) == [];
    NoSerialRule(OneByOne(), load, [a, b, c], 3);
    assert [a, b, c][..3] == [a, b, c];
    ThirdIsUnsafe(safe, a, b, c);
    SecondWaits(LimitsOf(OneByOne(), load), a, b);
  }

  // ---------------------------------------------------------------- the wave and run_change

  // The Task run_change would launch, if any.
  function RunChangeChoice(policy: Policy, load: Load, ready: seq<Candidate>): Option<Candidate> {
    if !policy.enabled || !policy.autoStart || load.change >= policy.maxBuilders || ready == [] then None
    else Some(ready[0])
  }

  lemma {:induction false} FirstIsTaken(l: Limits, cs: seq<Candidate>, k: nat)
    requires 0 < k <= |cs| && l.room == 1 && !AtCap(l, cs[0].provider, 0)
    ensures Taken(l, cs, k) == [cs[0]]
  {
    if k == 1 {
      assert Taken(l, cs, 0) == [];
    } else {
      FirstIsTaken(l, cs, k - 1);
    }
  }

  lemma {:induction false} FirstIsSafe(safe: Safety, cs: seq<Candidate>, k: nat)
    requires 0 < k <= |cs|
    ensures SafeSet(safe, cs, k) != [] && SafeSet(safe, cs, k)[0] == cs[0]
  {
    if k > 1 { FirstIsSafe(safe, cs, k - 1); } else { assert SafeSet(safe, cs, 0) == []; }
  }

  lemma {:induction false} NoneBlocked(policy: Policy, load: Load, cs: seq<Candidate>, k: nat)
    requires k <= |cs| && Uniform(cs) && cs != []
    ensures Unblocked(policy, load, cs, k) == if SerialBlocked(policy, load, cs[0]) then [] else cs[..k]
  {
    if k > 0 { NoneBlocked(policy, load, cs, k - 1); }
  }

  lemma {:induction false} NoneTaken(l: Limits, cs: seq<Candidate>, k: nat)
    requires k <= |cs|
    requires l.room == 0 || forall i :: 0 <= i < |cs| ==> AtCap(l, cs[i].provider, 0)
    ensures Taken(l, cs, k) == []
  {
    if k > 0 { NoneTaken(l, cs, k - 1); }
  }

  lemma {:induction false} SerialSelection(policy: Policy, load: Load, safe: Safety, ready: seq<Candidate>)
    requires !policy.parallel && Uniform(ready) && ready != []
    ensures Selected(policy, load, safe, ready) ==
      if load.change > 0 || SerialBlocked(policy, load, ready[0]) || AtCap(LimitsOf(policy, load), ready[0].provider, 0)
      then [] else [ready[0]]
  {
    var l, open, safeOnes := LimitsOf(policy, load), Open(policy, load, ready), SafeOnes(policy, load, safe, ready);
    NoneBlocked(policy, load, ready, |ready|);
    assert ready[..|ready|] == ready;
    SafeSetFrom(safe, open, |open|);
    if open != [] { FirstIsSafe(safe, open, |open|); }
    if load.change > 0 || SerialBlocked(policy, load, ready[0]) || AtCap(l, ready[0].provider, 0) {
      forall i | 0 <= i < |safeOnes| ensures safeOnes[i].provider == ready[0].provider {
        assert safeOnes[i] in safeOnes;
      }
      NoneTaken(l, safeOnes, |safeOnes|);
    } else {
      FirstIsTaken(l, safeOnes, |safeOnes|);
    }
  }

  // MAIN: with parallel execution off, a wave picks exactly the Task run_change would pick if and
  // only if the two capacity tests agree. They differ when maxBuilders is not 1, when auto start is
  // off, when a serial repository is busy, or when the provider has no room left.
  lemma {:induction false} SerialWaveMatchesRunChange(policy: Policy, load: Load, safe: Safety, ready: seq<Candidate>)
    requires policy.enabled && !policy.parallel && Uniform(ready)
    ensures
      var wave := Selected(policy, load, safe, ready);
      var choice := RunChangeChoice(policy, load, ready);
      (wave == if choice.Some? then [choice.value] else [])
      <==> (|| ready == []
            || (policy.autoStart && load.change < policy.maxBuilders) ==
               (load.change == 0 && !SerialBlocked(policy, load, ready[0]) &&
                 !AtCap(LimitsOf(policy, load), ready[0].provider, 0)))
  {
    if ready == [] {
      assert SafeOnes(policy, load, safe, ready) == [];
    } else {
      SerialSelection(policy, load, safe, ready);
    }
  }
}
