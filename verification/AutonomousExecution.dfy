/**
 Runs of the autonomous scheduler for one Change: run_change, wave passes, the launch of one named
 Task, and sessions that end (app/services/autonomous_execution_service.py and
 app/services/execution_wave_service.py). Each pass is one atomic step here; overlapping passes
 are the subject of modules FailureStreaks and WaveProtocol.
 */
module AutonomousExecution {
  import opened Wrappers
  import opened TaskReadiness
  import opened FailureStreaks
  import opened CandidateSets
  import opened WavePlanning

  // ---------------------------------------------------------------- launching

  // live holds the Task of every live session; logs the launch events of every Task.
  datatype State = State(live: multiset<nat>, logs: map<nat, seq<LaunchEvent>>)

  function LogOf(s: State, t: nat): seq<LaunchEvent> { if t in s.logs then s.logs[t] else [] }

  function Launched(s: State, t: nat, launch: Launch): State {
    match launch
    case Started => State(s.live + multiset{t}, s.logs[t := LogOf(s, t) + [BuilderLaunched]])
    case StartFailed(leaves) =>
      State(if leaves then s.live + multiset{t} else s.live, s.logs[t := LogOf(s, t) + [ExecutionFailed]])
    case Blocked => s
  }

  // The streak lemmas are about these logs, and a session is there after a start that succeeds, or fails late.
  lemma {:induction false} LaunchedExactly(s: State, t: nat, launch: Launch, u: nat)
    ensures LogOf(Launched(s, t, launch), u) == if u == t then Logged(LogOf(s, t), launch) else LogOf(s, u)
    ensures Launched(s, t, launch).live ==
      s.live + if launch == Started || launch == StartFailed(true) then multiset{t} else multiset{}
  {
  }

  function LaunchedUpTo(s: State, cs: seq<Candidate>, launch: nat -> Launch, k: nat): State
    requires k <= |cs|
  {
    if k == 0 then s else Launched(LaunchedUpTo(s, cs, launch, k - 1), cs[k - 1].task, launch(cs[k - 1].task))
  }

  // ---------------------------------------------------------------- passes

  // What a pass reads besides the sessions and logs: the Tasks of the Change and the facts of each.
  datatype View = View(tasks: seq<nat>, facts: nat -> Facts, rank: Rank, load: Load)

  function VerdictsOf(v: View): Verdicts { (t: nat) => EvaluateTask(v.facts(t)) }

  // The view is of this state, and lists every Task once.
  ghost predicate Reads(v: View, s: State) {
    && (forall t :: v.facts(t).liveSession == (s.live[t] > 0) && v.facts(t).log == LogOf(s, t))
    && v.load.change == |s.live|
    && forall t :: multiset(v.tasks)[t] <= 1
  }

  datatype Step =
    | RunChange(policy: Policy, view: View, launch: nat -> Launch)
    | WavePass(policy: Policy, view: View, safe: Safety, launch: nat -> Launch)
    | LaunchNamed(view: View, task: nat, launch: nat -> Launch)
    | LaunchFix(fix: nat, outcome: Launch)
    | SessionEnds(task: nat)

  // The review-fix loop launches a FIX Task in the tick that creates it, in the workspace handed over to
  // it: nothing was logged for the Task before, and it has no session. The next tick reviews that Task.
  ghost predicate Enabled(s: State, step: Step, maxBuilders: int) {
    match step
    case RunChange(policy, view, _) => Reads(view, s) && policy.maxBuilders == maxBuilders
    case WavePass(policy, view, _, _) => Reads(view, s) && policy.maxBuilders == maxBuilders
    case LaunchNamed(view, _, _) => Reads(view, s)
    case LaunchFix(fix, _) => fix !in s.logs && fix !in s.live
    case SessionEnds(t) => t in s.live
  }

  function RunChangeStep(s: State, policy: Policy, view: View, launch: nat -> Launch): State {
    match RunChangeChoice(policy, view.load, ReadyCandidates(view.tasks, VerdictsOf(view), view.rank))
    case None => s
    case Some(c) => Launched(s, c.task, launch(c.task))
  }

  function WaveStep(s: State, policy: Policy, view: View, safe: Safety, launch: nat -> Launch): State {
    match PlanWave(policy, view.load, safe, view.tasks, VerdictsOf(view), view.rank)
    case Disabled => s
    case Planned(selected, _) => LaunchedUpTo(s, selected, launch, |selected|)
  }

  function NamedStep(s: State, view: View, t: nat, launch: nat -> Launch): State {
    if EvaluateTask(view.facts(t)).AutoReady? then Launched(s, t, launch(t)) else s
  }

  function Apply(s: State, step: Step): State {
    match step
    case RunChange(policy, view, launch) => RunChangeStep(s, policy, view, launch)
    case WavePass(policy, view, safe, launch) => WaveStep(s, policy, view, safe, launch)
    case LaunchNamed(view, t, launch) => NamedStep(s, view, t, launch)
    case LaunchFix(fix, outcome) => Launched(s, fix, outcome)
    case SessionEnds(t) => s.(live := s.live - multiset{t})
  }

  ghost predicate IsRun(states: seq<State>, steps: seq<Step>, maxBuilders: int) {
    && |states| == |steps| + 1
    && forall i :: 0 <= i < |steps| ==> Leads(states[i], steps[i], states[i + 1], maxBuilders)
  }

  ghost predicate Leads(s: State, step: Step, s': State, maxBuilders: int) {
    Enabled(s, step, maxBuilders) && s' == Apply(s, step)
  }

  lemma {:induction false} StepOf(states: seq<State>, steps: seq<Step>, maxBuilders: int, i: nat)
    requires IsRun(states, steps, maxBuilders) && i < |steps|
    ensures Enabled(states[i], steps[i], maxBuilders) && states[i + 1] == Apply(states[i], steps[i])
  {
    assert Leads(states[i], steps[i], states[i + 1], maxBuilders);
  }

  // ---------------------------------------------------------------- sessions of a Change

  ghost predicate OnePerTask(s: State) { forall t :: s.live[t] <= 1 }
  ghost predicate WithinCap(s: State, maxBuilders: int) { |s.live| <= maxBuilders }

  // At most the given Tasks, and at most k, were added.
  ghost predicate Bounded(s: State, s': State, ids: multiset<nat>, k: nat) {
    (forall t :: s'.live[t] <= s.live[t] + ids[t]) && |s'.live| <= |s.live| + k
  }

  lemma {:induction false} LaunchedOne(s: State, s': State, ids: multiset<nat>, k: nat, t: nat, launch: Launch)
    requires Bounded(s, s', ids, k)
    ensures Bounded(s, Launched(s', t, launch), ids + multiset{t}, k + 1)
  {
  }

  // Launching adds at most the given Tasks.
  lemma {:induction false} LaunchedBounds(s: State, cs: seq<Candidate>, launch: nat -> Launch, k: nat)
    requires k <= |cs|
    ensures Bounded(s, LaunchedUpTo(s, cs, launch, k), IdsUpTo(cs, k), k)
  {
    for i := 0 to k
      invariant Bounded(s, LaunchedUpTo(s, cs, launch, i), IdsUpTo(cs, i), i)
    {
      LaunchedOne(s, LaunchedUpTo(s, cs, launch, i), IdsUpTo(cs, i), i, cs[i].task, launch(cs[i].task));
    }
  }

  // A ready Task has no session and fewer than three failures behind it.
  lemma {:induction false} ReadyIsFree(s: State, v: View, t: nat)
    requires Reads(v, s) && EvaluateTask(v.facts(t)).AutoReady?
    ensures s.live[t] == 0 && TrailingFailures(LogOf(s, t)) < REPEATED_FAILURE_THRESHOLD
  {
    assert v.facts(t).liveSession == (s.live[t] > 0) && v.facts(t).log == LogOf(s, t);
  }

  ghost predicate FreeTasks(s: State, cs: seq<Candidate>) {
    forall t :: t in TaskIds(cs) ==>
      TaskIds(cs)[t] == 1 && s.live[t] == 0 && TrailingFailures(LogOf(s, t)) < REPEATED_FAILURE_THRESHOLD
  }

  lemma {:induction false} ReadyAreFree(s: State, v: View, cs: seq<Candidate>)
    requires Reads(v, s)
    requires TaskIds(cs) <= multiset(v.tasks)
    requires forall c :: c in cs ==> ReadyFor(VerdictsOf(v), c)
    ensures FreeTasks(s, cs)
  {
    forall t | t in TaskIds(cs)
      ensures TaskIds(cs)[t] == 1 && s.live[t] == 0 && TrailingFailures(LogOf(s, t)) < REPEATED_FAILURE_THRESHOLD
    {
      IdIn(cs, t);
      var c :| c in cs && c.task == t;
      assert ReadyFor(VerdictsOf(v), c);
      ReadyIsFree(s, v, t);
      assert TaskIds(cs)[t] <= multiset(v.tasks)[t] <= 1;
    }
  }

  // What a wave pass may launch: free Tasks, no more than the room its policy leaves.
  lemma {:induction false} WaveSelection(s: State, policy: Policy, v: View, safe: Safety)
    requires Reads(v, s) && policy.enabled
    ensures var plan := PlanWave(policy, v.load, safe, v.tasks, VerdictsOf(v), v.rank);
      plan.Planned? && FreeTasks(s, plan.selected) &&
      (plan.selected != [] ==> |s.live| + |plan.selected| <= WaveCap(policy))
  {
    var plan := PlanWave(policy, v.load, safe, v.tasks, VerdictsOf(v), v.rank);
    PlanPartitionsTasks(policy, v.load, safe, v.tasks, VerdictsOf(v), v.rank);
    PlanSelectsWell(policy, v.load, safe, v.tasks, VerdictsOf(v), v.rank);
    ReadyAreFree(s, v, plan.selected);
  }

  // The Task run_change launches is free.
  lemma {:induction false} RunChangeSelection(s: State, policy: Policy, v: View)
    requires Reads(v, s)
    ensures match RunChangeChoice(policy, v.load, ReadyCandidates(v.tasks, VerdictsOf(v), v.rank))
      case None => true
      case Some(c) =>
        && s.live[c.task] == 0 && |s.live| < policy.maxBuilders
        && TrailingFailures(LogOf(s, c.task)) < REPEATED_FAILURE_THRESHOLD
  {
    var ready := ReadyCandidates(v.tasks, VerdictsOf(v), v.rank);
    ReadyPartition(v.tasks, VerdictsOf(v), v.rank);
    if ready != [] {
      assert ready[0] in ready;
      assert ReadyFor(VerdictsOf(v), ready[0]);
      ReadyIsFree(s, v, ready[0].task);
    }
  }

  lemma {:induction false} LaunchesAreBounded(s: State, cs: seq<Candidate>, launch: nat -> Launch)
    requires OnePerTask(s) && FreeTasks(s, cs)
    ensures OnePerTask(LaunchedUpTo(s, cs, launch, |cs|))
    ensures |LaunchedUpTo(s, cs, launch, |cs|).live| <= |s.live| + |cs|
  {
    LaunchedBounds(s, cs, launch, |cs|);
    forall t ensures LaunchedUpTo(s, cs, launch, |cs|).live[t] <= 1 {
      assert t in TaskIds(cs) || TaskIds(cs)[t] == 0;
    }
  }

  // A wave pass leaves the sessions as they are, or within the cap of its policy.
  lemma {:induction false} WaveBounds(s: State, policy: Policy, v: View, safe: Safety, launch: nat -> Launch)
    requires OnePerTask(s) && Reads(v, s)
    ensures var s' := WaveStep(s, policy, v, safe, launch);
      OnePerTask(s') && (s' == s || |s'.live| <= if policy.parallel then policy.maxBuilders else 1)
  {
    if policy.enabled {
      WaveSelection(s, policy, v, safe);
      LaunchesAreBounded(s, PlanWave(policy, v.load, safe, v.tasks, VerdictsOf(v), v.rank).selected, launch);
    }
  }

  lemma {:induction false} RunChangeBounds(s: State, policy: Policy, v: View, launch: nat -> Launch)
    requires OnePerTask(s) && Reads(v, s)
    ensures var s' := RunChangeStep(s, policy, v, launch);
      OnePerTask(s') && (s'.live == s.live || (|s.live| < policy.maxBuilders && |s'.live| == |s.live| + 1))
  {
    RunChangeSelection(s, policy, v);
  }

  lemma {:induction false} NamedKeepsOnePerTask(s: State, v: View, t: nat, launch: nat -> Launch)
    requires OnePerTask(s) && Reads(v, s)
    ensures OnePerTask(NamedStep(s, v, t, launch))
  {
    if EvaluateTask(v.facts(t)).AutoReady? { ReadyIsFree(s, v, t); }
  }

  lemma {:induction false} StepKeepsOnePerTask(s: State, step: Step, maxBuilders: int)
    requires OnePerTask(s) && Enabled(s, step, maxBuilders)
    ensures OnePerTask(Apply(s, step))
  {
    match step
    case RunChange(policy, view, launch) => RunChangeBounds(s, policy, view, launch);
    case WavePass(policy, view, safe, launch) => WaveBounds(s, policy, view, safe, launch);
    case LaunchNamed(view, t, launch) => NamedKeepsOnePerTask(s, view, t, launch);
    case LaunchFix(_, _) =>
    case SessionEnds(t) => assert forall u :: (s.live - multiset{t})[u] <= s.live[u];
  }

  // The steps that look at the cap; a wave looks at the configured one only with parallel execution on.
  ghost predicate Capped(step: Step, serial: bool) {
    !step.LaunchNamed? && !step.LaunchFix? && (step.WavePass? ==> step.policy.parallel || serial)
  }

  lemma {:induction false} StepKeepsCap(s: State, step: Step, maxBuilders: int, serial: bool)
    requires WithinCap(s, maxBuilders) && OnePerTask(s) && Enabled(s, step, maxBuilders)
    requires Capped(step, serial) && (maxBuilders >= 1 || !serial)
    ensures WithinCap(Apply(s, step), maxBuilders)
  {
    match step
    case RunChange(policy, view, launch) => RunChangeBounds(s, policy, view, launch);
    case WavePass(policy, view, safe, launch) => WaveBounds(s, policy, view, safe, launch);
    case _ =>
  }

  // MAIN: from a state with at most one live session per Task, every run keeps it so, launches of
  // named Tasks and of FIX Tasks included.
  lemma {:induction false} RunKeepsOnePerTask(states: seq<State>, steps: seq<Step>, maxBuilders: int, k: nat)
    requires IsRun(states, steps, maxBuilders) && k <= |steps| && OnePerTask(states[0])
    ensures OnePerTask(states[k])
  {
    if k > 0 {
      RunKeepsOnePerTask(states, steps, maxBuilders, k - 1);
      StepOf(states, steps, maxBuilders, k - 1);
      StepKeepsOnePerTask(states[k - 1], steps[k - 1], maxBuilders);
    }
  }

  lemma {:induction false} RunKeepsCap(states: seq<State>, steps: seq<Step>, maxBuilders: int, serial: bool, k: nat)
    requires IsRun(states, steps, maxBuilders) && k <= |steps| && (maxBuilders >= 1 || !serial)
    requires OnePerTask(states[0]) && WithinCap(states[0], maxBuilders)
    requires forall i :: 0 <= i < k ==> Capped(steps[i], serial)
    ensures WithinCap(states[k], maxBuilders)
  {
    if k > 0 {
      RunKeepsCap(states, steps, maxBuilders, serial, k - 1);
      RunKeepsOnePerTask(states, steps, maxBuilders, k - 1);
      StepOf(states, steps, maxBuilders, k - 1);
      StepKeepsCap(states[k - 1], steps[k - 1], maxBuilders, serial);
    }
  }

  // A run of run_change passes, wave passes and ending sessions that starts within the cap; serial says
  // whether parallel execution may be off in a wave.
  ghost predicate CapRun(states: seq<State>, steps: seq<Step>, maxBuilders: int, serial: bool) {
    && IsRun(states, steps, maxBuilders) && OnePerTask(states[0]) && WithinCap(states[0], maxBuilders)
    && forall i :: 0 <= i < |steps| ==> Capped(steps[i], serial)
  }

  ghost predicate CapHolds(maxBuilders: int, serial: bool) {
    forall states, steps :: CapRun(states, steps, maxBuilders, serial) ==> WithinCap(states[|steps|], maxBuilders)
  }

  // One step beyond the cap is enough.
  lemma {:induction false} OneStepBreaksCap(s: State, step: Step, maxBuilders: int, serial: bool)
    requires OnePerTask(s) && WithinCap(s, maxBuilders) && Enabled(s, step, maxBuilders) && Capped(step, serial)
    requires !WithinCap(Apply(s, step), maxBuilders)
    ensures !CapHolds(maxBuilders, serial)
  {
    var states, steps := [s, Apply(s, step)], [step];
    assert Leads(states[0], steps[0], states[1], maxBuilders);
    assert CapRun(states, steps, maxBuilders, serial) && !WithinCap(states[|steps|], maxBuilders);
  }

  // MAIN: the cap holds over every such run if and only if it is not zero or no wave is serial.
  lemma {:induction false} CapHoldsExactly(maxBuilders: int, serial: bool)
    ensures CapHolds(maxBuilders, serial) <==> maxBuilders != 0 || !serial
  {
    if maxBuilders == 0 && serial {
      SerialWaveIgnoresZeroCap(0);
      OneStepBreaksCap(State(multiset{}, map[]), SerialWave(0), 0, true);
    } else {
      forall states, steps | CapRun(states, steps, maxBuilders, serial)
        ensures WithinCap(states[|steps|], maxBuilders)
      {
        RunKeepsCap(states, steps, maxBuilders, serial, |steps|);
      }
    }
  }

  // ---------------------------------------------------------------- what is launched

  // Something was recorded about the Task, or it got a session.
  ghost predicate LaunchedIn(s: State, s': State, t: nat) {
    LogOf(s', t) != LogOf(s, t) || s'.live[t] > s.live[t]
  }

  // The Task met every condition, as things stood.
  ghost predicate WasLaunchable(s: State, v: View, t: nat) {
    Launchable(v.facts(t)) && s.live[t] == 0 && !Stopped(LogOf(s, t))
  }

  lemma {:induction false} ReadyWasLaunchable(s: State, v: View, t: nat)
    requires Reads(v, s) && EvaluateTask(v.facts(t)).AutoReady?
    ensures WasLaunchable(s, v, t)
  {
    VerdictExactly(v.facts(t));
    assert v.facts(t).liveSession == (s.live[t] > 0) && v.facts(t).log == LogOf(s, t);
  }

  lemma {:induction false} WaveLaunchedReady(
    s: State, policy: Policy, v: View, safe: Safety, launch: nat -> Launch, t: nat)
    requires Reads(v, s) && LaunchedIn(s, WaveStep(s, policy, v, safe, launch), t)
    ensures policy.enabled && WasLaunchable(s, v, t)
  {
    var verdict := VerdictsOf(v);
    var selected := PlanWave(policy, v.load, safe, v.tasks, verdict, v.rank).selected;
    SelectionIsBest(policy, v.load, safe, v.tasks, verdict, v.rank);
    LaunchedBounds(s, selected, launch, |selected|);
    if t !in TaskIds(selected) {
      LogUntouched(s, selected, launch, |selected|, t);
      assert false;
    }
    IdIn(selected, t);
    var c :| c in selected && c.task == t;
    assert ReadyFor(verdict, c);
    ReadyWasLaunchable(s, v, t);
  }

  lemma {:induction false} RunChangeLaunchedReady(s: State, policy: Policy, v: View, launch: nat -> Launch, t: nat)
    requires Reads(v, s) && LaunchedIn(s, RunChangeStep(s, policy, v, launch), t)
    ensures policy.enabled && policy.autoStart && |s.live| < policy.maxBuilders && WasLaunchable(s, v, t)
  {
    FirstReady(v.tasks, VerdictsOf(v), v.rank);
    ReadyWasLaunchable(s, v, t);
  }

  // MAIN: in every run, a Task that a run_change pass, a wave pass or a named launch has launched, or tried to,
  // met every condition of evaluate_task when the pass read it; passes of a disabled policy launch nothing.
  // Besides, sessions only end one at a time.
  lemma {:induction false} LaunchedWasReady(
    states: seq<State>, steps: seq<Step>, maxBuilders: int, i: nat, t: nat)
    requires IsRun(states, steps, maxBuilders) && i < |steps|
    ensures var s, step, s' := states[i], steps[i], states[i + 1];
      && (LaunchedIn(s, s', t) && !step.LaunchFix? ==>
           && !step.SessionEnds? && WasLaunchable(s, step.view, t)
           && (!step.LaunchNamed? ==> step.policy.enabled)
           && (step.RunChange? ==> step.policy.autoStart && |s.live| < maxBuilders))
      && (step.SessionEnds? ==> s.live == s'.live + multiset{step.task} && s'.logs == s.logs)
  {
    var s, step := states[i], steps[i];
    StepOf(states, steps, maxBuilders, i);
    if LaunchedIn(s, states[i + 1], t) {
      match step
      case RunChange(policy, v, launch) => RunChangeLaunchedReady(s, policy, v, launch, t);
      case WavePass(policy, v, safe, launch) => WaveLaunchedReady(s, policy, v, safe, launch, t);
      case LaunchNamed(v, u, launch) => ReadyWasLaunchable(s, v, u);
      case _ =>
    }
  }

  // From s the Task t was launched, before which no Task comes that meets every condition.
  ghost predicate LaunchesFirst(s: State, s': State, v: View, launch: nat -> Launch, t: nat) {
    && t in v.tasks && Launchable(v.facts(t)) && s' == Launched(s, t, launch(t))
    && forall u :: u in v.tasks && Launchable(v.facts(u)) ==> NoLater(v.rank(t), v.rank(u))
  }

  // MAIN: run_change launches nothing when its policy is off, at its cap, or when no Task meets every
  // condition; otherwise it launches a Task that does, first by dependency depth and plan order.
  lemma {:induction false} RunChangeExactly(s: State, policy: Policy, v: View, launch: nat -> Launch)
    requires Reads(v, s)
    ensures var s' := RunChangeStep(s, policy, v, launch);
      if !policy.enabled || !policy.autoStart || |s.live| >= policy.maxBuilders ||
        (forall t :: t in v.tasks ==> !Launchable(v.facts(t)))
      then s' == s
      else exists t :: LaunchesFirst(s, s', v, launch, t)
  {
    var verdict := VerdictsOf(v);
    FirstReady(v.tasks, verdict, v.rank);
    forall t ensures verdict(t).AutoReady? <==> Launchable(v.facts(t)) { VerdictExactly(v.facts(t)); }
    var choice := RunChangeChoice(policy, v.load, ReadyCandidates(v.tasks, verdict, v.rank));
    if choice.Some? { assert LaunchesFirst(s, RunChangeStep(s, policy, v, launch), v, launch, choice.value.task); }
  }

  // A named launch launches the Task exactly when it meets every condition.
  lemma {:induction false} NamedLaunchExactly(s: State, v: View, t: nat, launch: nat -> Launch)
    ensures NamedStep(s, v, t, launch) == if Launchable(v.facts(t)) then Launched(s, t, launch(t)) else s
  {
    VerdictExactly(v.facts(t));
  }

  // ---------------------------------------------------------------- where the cap does not hold

  // One ready Task and nothing else.
  ghost function ReadyFacts(repository: nat, provider: string): Facts {
    Facts(true, true, false, DependenciesReady, false, true, false, false, false, Some(provider), true, false, [],
      Some(repository))
  }

  ghost function Alone(t: nat): View {
    View([t], (u: nat) => ReadyFacts(0, "codex"), (u: nat) => (0, 0), Load(0, (r: nat) => 0, (p: string) => 0))
  }

  // A wave for it under a cap of zero, with parallel execution off.
  ghost function SerialWave(t: nat): (step: Step)
    ensures step.WavePass?
  {
    WavePass(Policy(true, true, 0, false, false, map[]), Alone(t), (a: nat, b: nat) => true, (u: nat) => Started)
  }

  lemma {:induction false} SingleReady(t: nat, verdict: Verdicts, rank: Rank, repository: nat, p: string)
    requires verdict(t) == AutoReady(repository, p)
    ensures ReadyCandidates([t], verdict, rank) == [Candidate(t, repository, p)]
  {
    assert ReadyRanked([t], verdict, rank, 0) == [];
    assert ReadyRanked([t], verdict, rank, 1) == [Ranked(Candidate(t, repository, p), rank(t).0, rank(t).1)];
  }

  // With parallel execution off a wave uses a cap of one, so a configured cap of zero is exceeded.
  lemma {:induction false} SerialWaveIgnoresZeroCap(t: nat)
    ensures var s := State(multiset{}, map[]);
      Enabled(s, SerialWave(t), 0) && WithinCap(s, 0) && !WithinCap(Apply(s, SerialWave(t)), 0)
  {
    var policy, v, safe := SerialWave(t).policy, SerialWave(t).view, SerialWave(t).safe;
    var c := Candidate(t, 0, "codex");
    var ready := ReadyCandidates(v.tasks, VerdictsOf(v), v.rank);
    SingleReady(t, VerdictsOf(v), v.rank, 0, "codex");
    SerialSelection(policy, v.load, safe, ready);
    assert Selected(policy, v.load, safe, ready) == [c];
    assert multiset([t])[t] == 1;
  }

  // A view of s in which Task t, free and not stopped, is the only Task and ready on provider p.
  ghost function OneReady(s: State, t: nat, p: string): View {
    View([t], (u: nat) => ReadyFacts(0, p).(liveSession := s.live[u] > 0, log := LogOf(s, u)),
         (u: nat) => (0, 0), Load(|s.live|, (r: nat) => 0, (q: string) => 0))
  }

  lemma {:induction false} OneIsReady(s: State, t: nat, p: string)
    requires s.live[t] == 0 && TrailingFailures(LogOf(s, t)) < REPEATED_FAILURE_THRESHOLD
    ensures var v := OneReady(s, t, p);
      && Reads(v, s) && EvaluateTask(v.facts(t)).AutoReady?
      && ReadyCandidates(v.tasks, VerdictsOf(v), v.rank) == [Candidate(t, 0, p)]
  {
    var v := OneReady(s, t, p);
    assert multiset([t])[t] == 1;
    SingleReady(t, VerdictsOf(v), v.rank, 0, p);
  }

  // A named launch does not look at the cap at all.
  lemma {:induction false} NamedLaunchIgnoresCap(s: State, t: nat)
    requires s.live[t] == 0 && TrailingFailures(LogOf(s, t)) < REPEATED_FAILURE_THRESHOLD
    ensures exists step: Step ::
      step.LaunchNamed? && Enabled(s, step, |s.live|) && |Apply(s, step).live| == |s.live| + 1
  {
    OneIsReady(s, t, "codex");
    var step := LaunchNamed(OneReady(s, t, "codex"), t, (u: nat) => Started);
    assert Enabled(s, step, |s.live|);
  }

  // ---------------------------------------------------------------- failure streaks

  // The streak of Task t stays within the threshold.
  ghost predicate Tame(s: State, t: nat) { StreakBound(LogOf(s, t), REPEATED_FAILURE_THRESHOLD) }

  lemma {:induction false} LaunchKeepsTame(s: State, u: nat, launch: Launch, t: nat)
    requires Tame(s, t) && TrailingFailures(LogOf(s, u)) < REPEATED_FAILURE_THRESHOLD
    ensures Tame(Launched(s, u, launch), t)
  {
    if u == t {
      StreakAppend(LogOf(s, t), ExecutionFailed, REPEATED_FAILURE_THRESHOLD);
      StreakAppend(LogOf(s, t), BuilderLaunched, REPEATED_FAILURE_THRESHOLD);
    }
  }

  // Launching the first k Tasks leaves the log of any other Task alone.
  lemma {:induction false} LogUntouched(s: State, cs: seq<Candidate>, launch: nat -> Launch, k: nat, t: nat)
    requires k <= |cs| && t !in IdsUpTo(cs, k)
    ensures LogOf(LaunchedUpTo(s, cs, launch, k), t) == LogOf(s, t)
  {
    if k > 0 { LogUntouched(s, cs, launch, k - 1, t); }
  }

  // The Task a wave launches next was not launched earlier in the same wave.
  lemma {:induction false} FreeTask(s: State, cs: seq<Candidate>, k: nat)
    requires 0 < k <= |cs| && FreeTasks(s, cs)
    ensures cs[k - 1].task !in IdsUpTo(cs, k - 1)
    ensures TrailingFailures(LogOf(s, cs[k - 1].task)) < REPEATED_FAILURE_THRESHOLD
  {
    IdsGrow(cs, k, |cs|, cs[k - 1].task);
    assert cs[k - 1].task in TaskIds(cs);
  }

  lemma {:induction false} LaunchesKeepTame(s: State, cs: seq<Candidate>, launch: nat -> Launch, k: nat, t: nat)
    requires k <= |cs| && FreeTasks(s, cs) && Tame(s, t)
    ensures Tame(LaunchedUpTo(s, cs, launch, k), t)
  {
    if k > 0 {
      var u := cs[k - 1].task;
      LaunchesKeepTame(s, cs, launch, k - 1, t);
      FreeTask(s, cs, k);
      LogUntouched(s, cs, launch, k - 1, u);
      LaunchKeepsTame(LaunchedUpTo(s, cs, launch, k - 1), u, launch(u), t);
    }
  }

  lemma {:induction false} RunChangeKeepsTame(s: State, policy: Policy, v: View, launch: nat -> Launch, t: nat)
    requires Tame(s, t) && Reads(v, s)
    ensures Tame(RunChangeStep(s, policy, v, launch), t)
  {
    RunChangeSelection(s, policy, v);
    match RunChangeChoice(policy, v.load, ReadyCandidates(v.tasks, VerdictsOf(v), v.rank))
    case None =>
    case Some(c) => LaunchKeepsTame(s, c.task, launch(c.task), t);
  }

  lemma {:induction false} WaveKeepsTame(s: State, policy: Policy, v: View, safe: Safety, launch: nat -> Launch, t: nat)
    requires Tame(s, t) && Reads(v, s)
    ensures Tame(WaveStep(s, policy, v, safe, launch), t)
  {
    if policy.enabled {
      WaveSelection(s, policy, v, safe);
      var selected := PlanWave(policy, v.load, safe, v.tasks, VerdictsOf(v), v.rank).selected;
      LaunchesKeepTame(s, selected, launch, |selected|, t);
    }
  }

  lemma {:induction false} NamedKeepsTame(s: State, v: View, u: nat, launch: nat -> Launch, t: nat)
    requires Tame(s, t) && Reads(v, s)
    ensures Tame(NamedStep(s, v, u, launch), t)
  {
    if EvaluateTask(v.facts(u)).AutoReady? {
      ReadyIsFree(s, v, u);
      LaunchKeepsTame(s, u, launch(u), t);
    }
  }

  lemma {:induction false} StepKeepsTame(s: State, step: Step, maxBuilders: int, t: nat)
    requires Tame(s, t) && Enabled(s, step, maxBuilders)
    ensures Tame(Apply(s, step), t)
  {
    match step
    case RunChange(policy, v, launch) => RunChangeKeepsTame(s, policy, v, launch, t);
    case WavePass(policy, v, safe, launch) => WaveKeepsTame(s, policy, v, safe, launch, t);
    case LaunchNamed(v, u, launch) => NamedKeepsTame(s, v, u, launch, t);
    case LaunchFix(fix, outcome) => LaunchKeepsTame(s, fix, outcome, t);
    case SessionEnds(_) => assert LogOf(Apply(s, step), t) == LogOf(s, t);
  }

  lemma {:induction false} RunKeepsTame(states: seq<State>, steps: seq<Step>, maxBuilders: int, k: nat, t: nat)
    requires IsRun(states, steps, maxBuilders) && k <= |steps| && Tame(states[0], t)
    ensures Tame(states[k], t)
  {
    for i := 0 to k
      invariant Tame(states[i], t)
    {
      StepOf(states, steps, maxBuilders, i);
      StepKeepsTame(states[i], steps[i], maxBuilders, t);
    }
  }

  // MAIN: no run of passes from empty logs records four failures of a Task in a row, FIX Tasks included.
  lemma {:induction false} NeverFourFailures(
    states: seq<State>, steps: seq<Step>, maxBuilders: int, k: nat, t: nat, from: nat)
    requires IsRun(states, steps, maxBuilders) && k <= |steps| && states[0].logs == map[]
    requires from + 4 <= |LogOf(states[k], t)|
    ensures exists i :: from <= i < from + 4 && LogOf(states[k], t)[i] == BuilderLaunched
  {
    RunKeepsTame(states, steps, maxBuilders, k, t);
    StreakBoundMeaning(LogOf(states[k], t), REPEATED_FAILURE_THRESHOLD, from);
    var i :| from <= i <= from + REPEATED_FAILURE_THRESHOLD && LogOf(states[k], t)[i] == BuilderLaunched;
  }

  // ---------------------------------------------------------------- the cap of a provider

  // The provider's live sessions, here and under other Changes; the Change's own all run on the one
  // default provider.
  ghost function ProviderLive(s: State, elsewhere: nat): nat { |s.live| + elsewhere }

  // A wave that reads the provider's live sessions and its cap.
  ghost predicate ProviderWave(s: State, step: Step, p: string, cap: int, elsewhere: nat) {
    && step.WavePass? && p in step.policy.providerCaps && step.policy.providerCaps[p] == cap
    && step.view.load.provider(p) == ProviderLive(s, elsewhere)
    && exists repository :: ReadyAlike(VerdictsOf(step.view), repository, p)
  }

  lemma {:induction false} SelectionFitsProvider(
    policy: Policy, v: View, safe: Safety, p: string, cap: int, repository: nat)
    requires policy.enabled && p in policy.providerCaps && policy.providerCaps[p] == cap && v.load.provider(p) <= cap
    requires ReadyAlike(VerdictsOf(v), repository, p)
    ensures var plan := PlanWave(policy, v.load, safe, v.tasks, VerdictsOf(v), v.rank);
      plan.Planned? && v.load.provider(p) + |plan.selected| <= cap
  {
    var verdict := VerdictsOf(v);
    var selected := PlanWave(policy, v.load, safe, v.tasks, verdict, v.rank).selected;
    SelectionIsBest(policy, v.load, safe, v.tasks, verdict, v.rank);
    forall i | 0 <= i < |selected| ensures selected[i].provider == p {
      assert selected[i] in selected;
      assert ReadyFor(verdict, selected[i]);
    }
    OneProviderCount(selected, p, |selected|);
    assert AllProviders(selected)[p] == |selected|;
  }

  lemma {:induction false} WaveFitsProvider(
    s: State, policy: Policy, v: View, safe: Safety, launch: nat -> Launch, p: string, cap: int, elsewhere: nat)
    requires ProviderWave(s, WavePass(policy, v, safe, launch), p, cap, elsewhere)
    requires ProviderLive(s, elsewhere) <= cap
    ensures ProviderLive(WaveStep(s, policy, v, safe, launch), elsewhere) <= cap
  {
    if policy.enabled {
      var repository :| ReadyAlike(VerdictsOf(v), repository, p);
      SelectionFitsProvider(policy, v, safe, p, cap, repository);
      var selected := PlanWave(policy, v.load, safe, v.tasks, VerdictsOf(v), v.rank).selected;
      LaunchedBounds(s, selected, launch, |selected|);
    }
  }

  // The launches that never read a provider's cap.
  datatype Unread = ByRunChange | ByName | ByFix

  ghost predicate KindOf(step: Step, kinds: set<Unread>) {
    match step
    case RunChange(_, _, _) => ByRunChange in kinds
    case LaunchNamed(_, _, _) => ByName in kinds
    case LaunchFix(_, _) => ByFix in kinds
    case SessionEnds(_) => true
    case WavePass(_, _, _, _) => false
  }

  // A run, started within the cap, of waves that read it, ending sessions, and launches of these kinds.
  ghost predicate ProviderRun(
    states: seq<State>, steps: seq<Step>, maxBuilders: int, p: string, cap: int, elsewhere: nat, kinds: set<Unread>) {
    && IsRun(states, steps, maxBuilders) && ProviderLive(states[0], elsewhere) <= cap
    && forall i :: 0 <= i < |steps| ==>
      ProviderWave(states[i], steps[i], p, cap, elsewhere) || KindOf(steps[i], kinds)
  }

  ghost predicate ProviderCapHolds(maxBuilders: int, p: string, cap: int, elsewhere: nat, kinds: set<Unread>) {
    forall states, steps :: ProviderRun(states, steps, maxBuilders, p, cap, elsewhere, kinds) ==>
      ProviderLive(states[|steps|], elsewhere) <= cap
  }

  // Only waves read the cap; run_change respects it if the Change may not have more sessions anyway.
  ghost predicate ProviderSafe(maxBuilders: int, cap: int, elsewhere: nat, kinds: set<Unread>) {
    ByName !in kinds && ByFix !in kinds && (ByRunChange in kinds ==> maxBuilders + elsewhere <= cap)
  }

  lemma {:induction false} RunChangeAddsOne(s: State, policy: Policy, v: View, launch: nat -> Launch)
    requires Reads(v, s)
    ensures var s' := RunChangeStep(s, policy, v, launch);
      s'.live == s.live || (|s.live| < policy.maxBuilders && |s'.live| == |s.live| + 1)
  {
    RunChangeSelection(s, policy, v);
  }

  lemma {:induction false} SafeKindsKeepProviderCap(
    states: seq<State>, steps: seq<Step>, maxBuilders: int, p: string, cap: int, elsewhere: nat, kinds: set<Unread>)
    requires ProviderRun(states, steps, maxBuilders, p, cap, elsewhere, kinds)
    requires ProviderSafe(maxBuilders, cap, elsewhere, kinds)
    ensures ProviderLive(states[|steps|], elsewhere) <= cap
  {
    for i := 0 to |steps|
      invariant ProviderLive(states[i], elsewhere) <= cap
    {
      var step := steps[i];
      StepOf(states, steps, maxBuilders, i);
      assert ProviderWave(states[i], step, p, cap, elsewhere) || KindOf(step, kinds);
      if step.WavePass? {
        WaveFitsProvider(states[i], step.policy, step.view, step.safe, step.launch, p, cap, elsewhere);
      } else if step.RunChange? {
        RunChangeAddsOne(states[i], step.policy, step.view, step.launch);
      }
    }
  }

  // One launch from a state at the cap is enough.
  lemma {:induction false} OneLaunchBreaksProviderCap(
    s: State, step: Step, maxBuilders: int, p: string, cap: int, elsewhere: nat, kinds: set<Unread>)
    requires Enabled(s, step, maxBuilders) && KindOf(step, kinds)
    requires ProviderLive(s, elsewhere) <= cap < ProviderLive(Apply(s, step), elsewhere)
    ensures !ProviderCapHolds(maxBuilders, p, cap, elsewhere, kinds)
  {
    var states, steps := [s, Apply(s, step)], [step];
    assert Leads(states[0], steps[0], states[1], maxBuilders);
    assert ProviderRun(states, steps, maxBuilders, p, cap, elsewhere, kinds);
    assert ProviderLive(states[|steps|], elsewhere) > cap;
  }

  // n sessions of Task 0.
  ghost function Full(n: nat): State { State(multiset{}[0 := n], map[]) }

  lemma {:induction false} RunChangeLaunches(n: nat, p: string, maxBuilders: int)
    requires n < maxBuilders
    ensures
      var policy := Policy(true, true, maxBuilders, true, false, map[]);
      var step := RunChange(policy, OneReady(Full(n), 1, p), (u: nat) => Started);
      Enabled(Full(n), step, maxBuilders) && Apply(Full(n), step).live == Full(n).live + multiset{1}
  {
    OneIsReady(Full(n), 1, p);
  }

  lemma {:induction false} UnsafeKindBreaksProviderCap(
    maxBuilders: int, p: string, cap: int, elsewhere: nat, kinds: set<Unread>)
    requires elsewhere <= cap && !ProviderSafe(maxBuilders, cap, elsewhere, kinds)
    ensures !ProviderCapHolds(maxBuilders, p, cap, elsewhere, kinds)
  {
    var s := Full(cap - elsewhere);
    if ByFix in kinds {
      OneLaunchBreaksProviderCap(s, LaunchFix(1, Started), maxBuilders, p, cap, elsewhere, kinds);
    } else if ByName in kinds {
      OneIsReady(s, 1, p);
      var step := LaunchNamed(OneReady(s, 1, p), 1, (u: nat) => Started);
      OneLaunchBreaksProviderCap(s, step, maxBuilders, p, cap, elsewhere, kinds);
    } else {
      RunChangeLaunches(cap - elsewhere, p, maxBuilders);
      var policy := Policy(true, true, maxBuilders, true, false, map[]);
      var step := RunChange(policy, OneReady(s, 1, p), (u: nat) => Started);
      OneLaunchBreaksProviderCap(s, step, maxBuilders, p, cap, elsewhere, kinds);
    }
  }

  // MAIN: the cap of a provider holds over every such run if and only if no launch goes past the waves
  // but run_change's, and those only where the Change's own cap is the tighter one; or no state is within
  // the cap to begin with.
  lemma {:induction false} ProviderCapHoldsExactly(
    maxBuilders: int, p: string, cap: int, elsewhere: nat, kinds: set<Unread>)
    ensures ProviderCapHolds(maxBuilders, p, cap, elsewhere, kinds) <==>
      elsewhere > cap || ProviderSafe(maxBuilders, cap, elsewhere, kinds)
  {
    if elsewhere <= cap && !ProviderSafe(maxBuilders, cap, elsewhere, kinds) {
      UnsafeKindBreaksProviderCap(maxBuilders, p, cap, elsewhere, kinds);
    } else if elsewhere <= cap {
      forall states, steps | ProviderRun(states, steps, maxBuilders, p, cap, elsewhere, kinds)
        ensures ProviderLive(states[|steps|], elsewhere) <= cap
      {
        SafeKindsKeepProviderCap(states, steps, maxBuilders, p, cap, elsewhere, kinds);
      }
    }
  }

  // ---------------------------------------------------------------- the scheduler's methods

  datatype Outcome = Disabled | NoReadyTask | AtCapacity | Tried(task: nat, launch: Launch) | SkippedCapacityReached

  predicate IsLaunch(o: Outcome) { o.Tried? && o.launch.Started? }

  // What run_change answers.
  function RunOutcome(policy: Policy, view: View, launch: nat -> Launch): Outcome {
    if !policy.enabled then Outcome.Disabled
    else if policy.autoStart && view.load.change >= policy.maxBuilders then AtCapacity
    else match RunChangeChoice(policy, view.load, ReadyCandidates(view.tasks, VerdictsOf(view), view.rank))
      case Some(c) => Tried(c.task, launch(c.task))
      case None => NoReadyTask
  }

  // A Builder was launched for one of the first k Changes.
  ghost predicate LaunchedBefore(changes: seq<(Policy, View)>, launch: nat -> Launch, k: nat)
    requires k <= |changes|
  {
    exists j :: 0 <= j < k && Builds(RunOutcome(changes[j].0, changes[j].1, launch))
  }

  ghost predicate Builds(o: Outcome) { o.Tried? && o.launch == Started }

  // What tick answers for a Change: once a Builder was launched, every later Change is skipped.
  ghost function TickOutcome(changes: seq<(Policy, View)>, launch: nat -> Launch, i: nat): Outcome
    requires i < |changes|
  {
    if LaunchedBefore(changes, launch, i) then SkippedCapacityReached
    else RunOutcome(changes[i].0, changes[i].1, launch)
  }

  ghost function TickOutcomes(changes: seq<(Policy, View)>, launch: nat -> Launch, k: nat): (os: seq<Outcome>)
    requires k <= |changes|
    ensures |os| == k && forall i :: 0 <= i < k ==> os[i] == TickOutcome(changes, launch, i)
  {
    if k == 0 then [] else TickOutcomes(changes, launch, k - 1) + [TickOutcome(changes, launch, k - 1)]
  }

  // One Change more.
  lemma {:induction false} TickOneMore(
    s: State, changes: seq<(Policy, View)>, launch: nat -> Launch, k: nat, o: Outcome)
    requires k < |changes|
    requires o == if LaunchedBefore(changes, launch, k) then SkippedCapacityReached
      else RunOutcome(changes[k].0, changes[k].1, launch)
    ensures TickOutcomes(changes, launch, k + 1) == TickOutcomes(changes, launch, k) + [o]
    ensures LaunchedBefore(changes, launch, k + 1) <==> LaunchedBefore(changes, launch, k) || IsLaunch(o)
    ensures TickedUpTo(s, changes, launch, k + 1) ==
      if LaunchedBefore(changes, launch, k) then TickedUpTo(s, changes, launch, k)
      else RunChangeStep(TickedUpTo(s, changes, launch, k), changes[k].0, changes[k].1, launch)
  {
    if LaunchedBefore(changes, launch, k + 1) {
      var j :| 0 <= j < k + 1 && Builds(RunOutcome(changes[j].0, changes[j].1, launch));
    }
  }

  // At most one Builder is launched, and the answer says whether one was.
  lemma {:induction false} TickLaunchesOnce(changes: seq<(Policy, View)>, launch: nat -> Launch, k: nat)
    requires k <= |changes|
    ensures forall i, j :: 0 <= i < j < k && Builds(TickOutcome(changes, launch, i)) ==>
      TickOutcome(changes, launch, j) == SkippedCapacityReached
    ensures LaunchedBefore(changes, launch, k) <==> exists i :: 0 <= i < k && Builds(TickOutcome(changes, launch, i))
  {
    if k > 0 {
      TickLaunchesOnce(changes, launch, k - 1);
      if LaunchedBefore(changes, launch, k) && !LaunchedBefore(changes, launch, k - 1) {
        assert Builds(TickOutcome(changes, launch, k - 1));
      }
    }
  }

  // The state after the first k Changes: run_change for each until a Builder was launched.
  ghost function TickedUpTo(s: State, changes: seq<(Policy, View)>, launch: nat -> Launch, k: nat): State
    requires k <= |changes|
  {
    if k == 0 then s
    else
      var before := TickedUpTo(s, changes, launch, k - 1);
      if LaunchedBefore(changes, launch, k - 1) then before
      else RunChangeStep(before, changes[k - 1].0, changes[k - 1].1, launch)
  }

  class Scheduler {
    var live: multiset<nat>
    var logs: map<nat, seq<LaunchEvent>>

    constructor ()
      ensures Now() == State(multiset{}, map[])
    {
      live, logs := multiset{}, map[];
    }

    function Now(): State
      reads this
    {
      State(live, logs)
    }

    method LaunchBuilder(t: nat, launch: Launch)
      modifies this
      ensures Now() == Launched(old(Now()), t, launch)
    {
      var log := if t in logs then logs[t] else [];
      match launch
      case Started =>
        live, logs := live + multiset{t}, logs[t := log + [BuilderLaunched]];
      case StartFailed(leaves) =>
        if leaves { live := live + multiset{t}; }
        logs := logs[t := log + [ExecutionFailed]];
      case Blocked =>
    }

    method RunChange(policy: Policy, view: View, launch: nat -> Launch) returns (outcome: Outcome)
      modifies this
      ensures Now() == RunChangeStep(old(Now()), policy, view, launch)
      ensures outcome == RunOutcome(policy, view, launch)
    {
      if !policy.enabled {
        return Outcome.Disabled;
      }
      if !policy.autoStart {
        return NoReadyTask;
      }
      if view.load.change >= policy.maxBuilders {
        return AtCapacity;
      }
      var ready := ListAutoReadyTasks(view.tasks, VerdictsOf(view), view.rank);
      if ready == [] {
        return NoReadyTask;
      }
      var t := ready[0].task;
      LaunchBuilder(t, launch(t));
      outcome := Tried(t, launch(t));
    }

    method LaunchWave(selected: seq<Candidate>, launch: nat -> Launch)
      modifies this
      ensures Now() == LaunchedUpTo(old(Now()), selected, launch, |selected|)
    {
      for i := 0 to |selected|
        invariant Now() == LaunchedUpTo(old(Now()), selected, launch, i)
      {
        LaunchBuilder(selected[i].task, launch(selected[i].task));
      }
    }

    // tick over several Changes, each seen as it is when its turn comes: every Change is run like run_change
    // does until a Builder is launched, and after that every Change is skipped.
    method Tick(changes: seq<(Policy, View)>, launch: nat -> Launch) returns (results: seq<Outcome>, launched: bool)
      modifies this
      ensures Now() == TickedUpTo(old(Now()), changes, launch, |changes|)
      ensures results == TickOutcomes(changes, launch, |changes|)
      ensures launched == LaunchedBefore(changes, launch, |changes|)
    {
      results, launched := [], false;
      for i := 0 to |changes|
        invariant Now() == TickedUpTo(old(Now()), changes, launch, i)
        invariant results == TickOutcomes(changes, launch, i)
        invariant launched == LaunchedBefore(changes, launch, i)
      {
        var outcome := SkippedCapacityReached;
        if !launched {
          outcome := RunChange(changes[i].0, changes[i].1, launch);
        }
        TickOneMore(old(Now()), changes, launch, i, outcome);
        results := results + [outcome];
        launched := launched || IsLaunch(outcome);
      }
    }
  }
}
