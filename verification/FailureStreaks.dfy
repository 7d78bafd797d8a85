/**
 Failed launches of a Task in a row, as _repeated_failures counts them, and how many there can be when
 passes overlap (app/services/autonomous_execution_service.py).
 */
module FailureStreaks {
  import opened TaskReadiness

  // A failed start may still leave a live session behind; a blocked one logs nothing.
  datatype Launch = Started | StartFailed(leavesSession: bool) | Blocked

  // At no time were there more than n failures in a row.
  ghost predicate StreakBound(log: seq<LaunchEvent>, n: nat) {
    forall k :: 0 <= k <= |log| ==> TrailingFailures(log[..k]) <= n
  }

  lemma StreakAppend(log: seq<LaunchEvent>, e: LaunchEvent, n: nat)
    requires StreakBound(log, n) && (e == ExecutionFailed ==> TrailingFailures(log) < n)
    ensures StreakBound(log + [e], n)
  {
    forall k | 0 <= k <= |log + [e]| ensures TrailingFailures((log + [e])[..k]) <= n {
      if k <= |log| {
        assert (log + [e])[..k] == log[..k];
      } else {
        assert (log + [e])[..k] == log + [e];
        assert (log + [e])[..|log|] == log;
      }
    }
  }

  lemma {:induction false} AllFailedIsStreak(log: seq<LaunchEvent>, n: nat)
    requires n <= |log| && forall i :: |log| - n <= i < |log| ==> log[i] == ExecutionFailed
    ensures TrailingFailures(log) >= n
  {
    if n > 0 { AllFailedIsStreak(log[..|log| - 1], n - 1); }
  }

  // A bound of n means that among any n + 1 consecutive events one is a launch.
  lemma StreakBoundMeaning(log: seq<LaunchEvent>, n: nat, from: nat)
    requires StreakBound(log, n) && from + n + 1 <= |log|
    ensures exists i :: from <= i <= from + n && log[i] == BuilderLaunched
  {
    var upTo := log[..from + n + 1];
    if forall i :: from <= i <= from + n ==> log[i] == ExecutionFailed {
      AllFailedIsStreak(upTo, n + 1);
    }
  }

  // ---------------------------------------------------------------- overlapping passes

  // One Task: its log, how many passes found it ready and have not launched it yet, and, for a FIX Task,
  // how many review-fix ticks that overlap its creation are still to launch it. No later tick does.
  datatype Racing = Racing(log: seq<LaunchEvent>, planned: nat, fixing: nat)

  datatype RaceStep = Plan | Finish(launch: Launch) | FinishFix(launch: Launch)

  // A scheduler pass looks at the threshold when it plans; a review-fix tick never does.
  predicate RaceEnabled(r: Racing, step: RaceStep, overlap: nat) {
    match step
    case Plan => r.planned < overlap && TrailingFailures(r.log) < REPEATED_FAILURE_THRESHOLD
    case Finish(_) => r.planned > 0
    case FinishFix(_) => r.fixing > 0
  }

  function Logged(log: seq<LaunchEvent>, launch: Launch): seq<LaunchEvent> {
    match launch
    case Started => log + [BuilderLaunched]
    case StartFailed(_) => log + [ExecutionFailed]
    case Blocked => log
  }

  // A launch ends a streak, a failed start adds to it, a blocked one leaves it.
  lemma LoggedExactly(log: seq<LaunchEvent>, leavesSession: bool)
    ensures TrailingFailures(Logged(log, Started)) == 0
    ensures TrailingFailures(Logged(log, StartFailed(leavesSession))) == TrailingFailures(log) + 1
    ensures Logged(log, Blocked) == log
    ensures log <= Logged(log, Started) && log <= Logged(log, StartFailed(leavesSession))
  {
    assert (log + [ExecutionFailed])[..|log|] == log;
  }

  function RaceApply(r: Racing, step: RaceStep): Racing
    requires (step.Finish? ==> r.planned > 0) && (step.FinishFix? ==> r.fixing > 0)
  {
    match step
    case Plan => r.(planned := r.planned + 1)
    case Finish(launch) => r.(log := Logged(r.log, launch), planned := r.planned - 1)
    case FinishFix(launch) => r.(log := Logged(r.log, launch), fixing := r.fixing - 1)
  }

  ghost predicate RaceRun(rs: seq<Racing>, steps: seq<RaceStep>, overlap: nat, fixes: nat) {
    && |rs| == |steps| + 1 && rs[0] == Racing([], 0, fixes)
    && forall i :: 0 <= i < |steps| ==> RaceLeads(rs[i], steps[i], rs[i + 1], overlap)
  }

  ghost predicate RaceLeads(r: Racing, step: RaceStep, r': Racing, overlap: nat) {
    RaceEnabled(r, step, overlap) && r' == RaceApply(r, step)
  }

  // Failures so far and failures still possible.
  ghost predicate RaceBound(r: Racing, overlap: nat, fixes: nat) {
    && r.planned <= overlap && r.fixing <= fixes
    && TrailingFailures(r.log) + r.planned + r.fixing <= 2 + overlap + fixes
    && StreakBound(r.log, 2 + overlap + fixes)
  }

  lemma LoggedBound(log: seq<LaunchEvent>, launch: Launch, n: nat)
    requires StreakBound(log, n) && TrailingFailures(log) < n
    ensures StreakBound(Logged(log, launch), n) && TrailingFailures(Logged(log, launch)) <= TrailingFailures(log) + 1
  {
    StreakAppend(log, BuilderLaunched, n);
    StreakAppend(log, ExecutionFailed, n);
    assert (log + [ExecutionFailed])[..|log|] == log;
  }

  lemma RaceStepBound(r: Racing, step: RaceStep, overlap: nat, fixes: nat)
    requires RaceBound(r, overlap, fixes) && RaceEnabled(r, step, overlap)
    ensures RaceBound(RaceApply(r, step), overlap, fixes)
  {
    if !step.Plan? { LoggedBound(r.log, step.launch, 2 + overlap + fixes); }
  }

  lemma RaceKeepsBound(rs: seq<Racing>, steps: seq<RaceStep>, overlap: nat, fixes: nat, k: nat)
    requires RaceRun(rs, steps, overlap, fixes) && k <= |steps|
    ensures RaceBound(rs[k], overlap, fixes)
  {
    for i := 0 to k
      invariant RaceBound(rs[i], overlap, fixes)
    {
      assert RaceLeads(rs[i], steps[i], rs[i + 1], overlap);
      RaceStepBound(rs[i], steps[i], overlap, fixes);
    }
  }

  // MAIN: when at most `overlap` passes hold a ready verdict for the Task at once, and `fixes` review-fix
  // ticks overlap its creation, no run records three plus `overlap` plus `fixes` failures in a row.
  lemma OverlapBoundsStreak(rs: seq<Racing>, steps: seq<RaceStep>, overlap: nat, fixes: nat, k: nat, from: nat)
    requires RaceRun(rs, steps, overlap, fixes) && k <= |steps| && from + 3 + overlap + fixes <= |rs[k].log|
    ensures exists i :: from <= i < from + 3 + overlap + fixes && rs[k].log[i] == BuilderLaunched
  {
    RaceKeepsBound(rs, steps, overlap, fixes, k);
    StreakBoundMeaning(rs[k].log, 2 + overlap + fixes, from);
    var i :| from <= i <= from + (2 + overlap + fixes) && rs[k].log[i] == BuilderLaunched;
  }

  ghost predicate RaceReaches(r: Racing, overlap: nat, fixes: nat) {
    exists rs, steps :: RaceRun(rs, steps, overlap, fixes) && rs[|steps|] == r
  }

  lemma RaceExtends(r: Racing, step: RaceStep, overlap: nat, fixes: nat)
    requires RaceReaches(r, overlap, fixes) && RaceEnabled(r, step, overlap)
    ensures RaceReaches(RaceApply(r, step), overlap, fixes)
  {
    var rs: seq<Racing>, steps: seq<RaceStep> :| RaceRun(rs, steps, overlap, fixes) && rs[|steps|] == r;
    var r' := RaceApply(r, step);
    assert RaceRun(rs + [r'], steps + [step], overlap, fixes) && (rs + [r'])[|steps + [step]|] == r';
  }

  ghost function Failures(n: nat): (log: seq<LaunchEvent>)
    ensures |log| == n && forall i :: 0 <= i < n ==> log[i] == ExecutionFailed
    ensures TrailingFailures(log) == n
  {
    if n == 0 then [] else
      assert (Failures(n - 1) + [ExecutionFailed])[..n - 1] == Failures(n - 1);
      Failures(n - 1) + [ExecutionFailed]
  }

  // With n failures behind it, j passes can hold a plan as long as n is below the threshold.
  lemma {:induction false} PlansPileUp(n: nat, j: nat, overlap: nat, fixes: nat)
    requires n < REPEATED_FAILURE_THRESHOLD && j <= overlap
    requires RaceReaches(Racing(Failures(n), 0, fixes), overlap, fixes)
    ensures RaceReaches(Racing(Failures(n), j, fixes), overlap, fixes)
  {
    if j > 0 {
      PlansPileUp(n, j - 1, overlap, fixes);
      RaceExtends(Racing(Failures(n), j - 1, fixes), Plan, overlap, fixes);
    }
  }

  lemma {:induction false} PlansAllFail(n: nat, j: nat, fixing: nat, overlap: nat, fixes: nat)
    requires RaceReaches(Racing(Failures(n), j, fixing), overlap, fixes)
    ensures RaceReaches(Racing(Failures(n + j), 0, fixing), overlap, fixes)
    decreases j
  {
    if j > 0 {
      RaceExtends(Racing(Failures(n), j, fixing), Finish(StartFailed(false)), overlap, fixes);
      PlansAllFail(n + 1, j - 1, fixing, overlap, fixes);
    }
  }

  lemma {:induction false} FixesAllFail(n: nat, j: nat, overlap: nat, fixes: nat)
    requires RaceReaches(Racing(Failures(n), 0, j), overlap, fixes)
    ensures RaceReaches(Racing(Failures(n + j), 0, 0), overlap, fixes)
    decreases j
  {
    if j > 0 {
      RaceExtends(Racing(Failures(n), 0, j), FinishFix(StartFailed(false)), overlap, fixes);
      FixesAllFail(n + 1, j - 1, overlap, fixes);
    }
  }

  // The bound is exact: some run records two plus `overlap` plus `fixes` failures in a row.
  lemma OverlapBoundIsTight(overlap: nat, fixes: nat)
    requires overlap > 0
    ensures RaceReaches(Racing(Failures(2 + overlap + fixes), 0, 0), overlap, fixes)
  {
    assert RaceRun([Racing(Failures(0), 0, fixes)], [], overlap, fixes);
    PlansPileUp(0, 1, overlap, fixes);
    PlansAllFail(0, 1, fixes, overlap, fixes);
    PlansPileUp(1, 1, overlap, fixes);
    PlansAllFail(1, 1, fixes, overlap, fixes);
    PlansPileUp(2, overlap, overlap, fixes);
    PlansAllFail(2, overlap, fixes, overlap, fixes);
    FixesAllFail(2 + overlap, fixes, overlap, fixes);
  }
}
