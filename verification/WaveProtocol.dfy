/**
 Concurrent scheduler passes over the tables execution_waves and task_reservations, and the sessions
 they launch (run_execution_wave and reconcile_on_startup in app/services/execution_wave_service.py).
 A pass is a small program; every SQL statement of it is one atomic step, and the steps of
 different passes interleave in any order.
 */
module WaveProtocol {
  import opened Wrappers

  const ATTEMPTS := 5

  // ---------------------------------------------------------------- wave rows

  datatype WaveRow = WaveRow(change: nat, number: nat)

  // The numbers stored for one Change among the first k rows, in insertion order.
  function NumbersUpTo(rows: seq<WaveRow>, change: nat, k: nat): seq<nat>
    requires k <= |rows|
  {
    if k == 0 then []
    else
      var before := NumbersUpTo(rows, change, k - 1);
      if rows[k - 1].change == change then before + [rows[k - 1].number] else before
  }

  function Numbers(rows: seq<WaveRow>, change: nat): seq<nat> { NumbersUpTo(rows, change, |rows|) }

  // SELECT COALESCE(MAX(wave_number),0) over the first k rows.
  function MaxUpTo(rows: seq<WaveRow>, change: nat, k: nat): nat
    requires k <= |rows|
  {
    if k == 0 then 0
    else
      var before := MaxUpTo(rows, change, k - 1);
      if rows[k - 1].change == change && rows[k - 1].number > before then rows[k - 1].number else before
  }

  function NextNumber(rows: seq<WaveRow>, change: nat): nat { MaxUpTo(rows, change, |rows|) + 1 }

  // UNIQUE(change_id, wave_number)
  predicate Accepts(rows: seq<WaveRow>, row: WaveRow) { row !in rows }

  // ---------------------------------------------------------------- the machine

  datatype Pc =
    | Numbering(attempt: nat)
    | Inserting(attempt: nat, number: nat)
    | Reserving(wave: nat, next: nat)
    | InWindow(wave: nat, next: nat, launched: bool)
    | Finished
    | GaveUp

  // began: waves of the Change when the pass started, for the contention bound only.
  datatype Pass = Pass(change: nat, tasks: seq<nat>, pc: Pc, began: nat)

  // rows and reservations (Task to wave) are the tables; live holds the Task of every live session.
  // leaked names the rows whose pass died inside its window or in a crash.
  datatype State = State(
    rows: seq<WaveRow>, reservations: map<nat, nat>, passes: map<nat, Pass>,
    up: bool, live: multiset<nat>, leaked: set<nat>)

  datatype Step =
    | Start(pass: nat, change: nat, tasks: seq<nat>)
    | ReadNumber(pass: nat)
    | InsertWave(pass: nat)
    | Reserve(pass: nat)
    | Launch(pass: nat, starts: bool)
    | Release(pass: nat)
    | Die(pass: nat)
    | SessionEnds(task: nat)
    | Crash
    | Reconcile

  const Empty := State([], map[], map[], true, multiset{}, {})

  function PcOf(s: State, p: nat): Pc { if p in s.passes then s.passes[p].pc else Finished }

  // The pass is inside the launch window of Task t.
  ghost predicate Inside(s: State, p: nat, t: nat) {
    p in s.passes && WindowTask(s.passes[p], t)
  }

  ghost predicate WindowTask(pass: Pass, t: nat) {
    pass.pc.InWindow? && pass.pc.next < |pass.tasks| && pass.tasks[pass.pc.next] == t
  }

  predicate Distinct(tasks: seq<nat>) { forall i, j :: 0 <= i < j < |tasks| ==> tasks[i] != tasks[j] }

  // A plan is made for Tasks without a live session; it may be old by the time they are launched.
  predicate Enabled(s: State, step: Step) {
    match step
    case Start(p, _, tasks) => s.up && p !in s.passes && Distinct(tasks) && forall t :: t in tasks ==> t !in s.live
    case ReadNumber(p) => PcOf(s, p).Numbering?
    case InsertWave(p) => PcOf(s, p).Inserting?
    case Reserve(p) => PcOf(s, p).Reserving?
    case Launch(p, _) => PcOf(s, p).InWindow? && !PcOf(s, p).launched
    case Release(p) => PcOf(s, p).InWindow? && PcOf(s, p).launched
    case Die(p) => p in s.passes
    case SessionEnds(t) => s.up && t in s.live
    case Crash => s.up
    case Reconcile => !s.up
  }

  function Moved(s: State, p: nat, pc: Pc): State
    requires p in s.passes
  {
    s.(passes := s.passes[p := s.passes[p].(pc := pc)])
  }

  function ReadStep(s: State, p: nat): State
    requires p in s.passes && s.passes[p].pc.Numbering?
  {
    var pass := s.passes[p];
    if pass.pc.attempt >= ATTEMPTS then Moved(s, p, GaveUp)
    else Moved(s, p, Inserting(pass.pc.attempt, NextNumber(s.rows, pass.change)))
  }

  function InsertStep(s: State, p: nat): State
    requires p in s.passes && s.passes[p].pc.Inserting?
  {
    var pass := s.passes[p];
    var row := WaveRow(pass.change, pass.pc.number);
    if Accepts(s.rows, row) then Moved(s, p, Reserving(|s.rows|, 0)).(rows := s.rows + [row])
    else Moved(s, p, Numbering(pass.pc.attempt + 1))
  }

  function ReserveStep(s: State, p: nat): State
    requires p in s.passes && s.passes[p].pc.Reserving?
  {
    var pass := s.passes[p];
    var wave, next := pass.pc.wave, pass.pc.next;
    if next >= |pass.tasks| then Moved(s, p, Finished)
    else if pass.tasks[next] in s.reservations then Moved(s, p, Reserving(wave, next + 1))
    else Moved(s, p, InWindow(wave, next, false)).(reservations := s.reservations[pass.tasks[next] := wave])
  }

  // The launch itself looks for no live session; when it fails, none is added.
  function LaunchStep(s: State, p: nat, starts: bool): State
    requires p in s.passes && s.passes[p].pc.InWindow?
  {
    var pass := s.passes[p];
    var live := if starts && pass.pc.next < |pass.tasks| then s.live + multiset{pass.tasks[pass.pc.next]} else s.live;
    Moved(s, p, pass.pc.(launched := true)).(live := live)
  }

  function ReleaseStep(s: State, p: nat): State
    requires p in s.passes && s.passes[p].pc.InWindow?
  {
    var pass := s.passes[p];
    var rest := if pass.pc.next < |pass.tasks| then s.reservations - {pass.tasks[pass.pc.next]} else s.reservations;
    Moved(s, p, Reserving(pass.pc.wave, pass.pc.next + 1)).(reservations := rest)
  }

  // An exception that leaves the method: its row stays behind.
  function DieStep(s: State, p: nat): State
    requires p in s.passes
  {
    var pass := s.passes[p];
    var left := if pass.pc.InWindow? && pass.pc.next < |pass.tasks| then {pass.tasks[pass.pc.next]} else {};
    Moved(s, p, Finished).(leaked := s.leaked + left)
  }

  function Apply(s: State, step: Step): State
    requires Enabled(s, step)
  {
    match step
    case Start(p, change, tasks) =>
      s.(passes := s.passes[p := Pass(change, tasks, Numbering(0), |Numbers(s.rows, change)|)])
    case ReadNumber(p) => ReadStep(s, p)
    case InsertWave(p) => InsertStep(s, p)
    case Reserve(p) => ReserveStep(s, p)
    case Launch(p, starts) => LaunchStep(s, p, starts)
    case Release(p) => ReleaseStep(s, p)
    case Die(p) => DieStep(s, p)
    case SessionEnds(t) => s.(live := s.live - multiset{t})
    case Crash => s.(passes := map[], up := false, leaked := s.reservations.Keys)
    case Reconcile => s.(reservations := map[], up := true, live := multiset{}, leaked := {})
  }

  // States are the states of a run, one step apart, from empty tables.
  ghost predicate IsRun(states: seq<State>, steps: seq<Step>) {
    && |states| == |steps| + 1 && states[0] == Empty
    && forall i :: 0 <= i < |steps| ==> Leads(states[i], steps[i], states[i + 1])
  }

  ghost predicate Leads(s: State, step: Step, s': State) { Enabled(s, step) && s' == Apply(s, step) }

  lemma StepOf(states: seq<State>, steps: seq<Step>, i: nat)
    requires IsRun(states, steps) && i < |steps|
    ensures Leads(states[i], steps[i], states[i + 1])
  {
  }

  // ---------------------------------------------------------------- wave numbers

  ghost predicate Consecutive(ns: seq<nat>) { forall i :: 0 <= i < |ns| ==> ns[i] == i + 1 }

  ghost predicate PassNumbered(rows: seq<WaveRow>, pass: Pass) {
    var n := |Numbers(rows, pass.change)|;
    match pass.pc
    case Numbering(a) => a <= ATTEMPTS && n >= pass.began + a
    case Inserting(a, number) => a < ATTEMPTS && pass.began + a < number <= n + 1
    case GaveUp => n >= pass.began + ATTEMPTS
    case _ => true
  }

  ghost predicate Numbered(s: State) {
    && (forall c :: Consecutive(Numbers(s.rows, c)))
    && forall p :: p in s.passes ==> PassNumbered(s.rows, s.passes[p])
  }

  lemma {:induction false} NumbersPrefix(a: seq<WaveRow>, b: seq<WaveRow>, c: nat, k: nat)
    requires k <= |a| && k <= |b| && forall i :: 0 <= i < k ==> a[i] == b[i]
    ensures NumbersUpTo(a, c, k) == NumbersUpTo(b, c, k)
  {
    if k > 0 { NumbersPrefix(a, b, c, k - 1); }
  }

  lemma NumbersAppend(rows: seq<WaveRow>, row: WaveRow, c: nat)
    ensures Numbers(rows + [row], c) == if row.change == c then Numbers(rows, c) + [row.number] else Numbers(rows, c)
  {
    NumbersPrefix(rows + [row], rows, c, |rows|);
  }

  // The read sees the last number, and the constraint rejects exactly the numbers already stored.
  lemma {:induction false} NumbersMeaning(rows: seq<WaveRow>, c: nat, k: nat)
    requires k <= |rows| && Consecutive(NumbersUpTo(rows, c, k))
    ensures MaxUpTo(rows, c, k) == |NumbersUpTo(rows, c, k)|
    ensures forall n :: n in NumbersUpTo(rows, c, k) <==> exists i :: 0 <= i < k && rows[i] == WaveRow(c, n)
  {
    if k > 0 {
      var before, ns := NumbersUpTo(rows, c, k - 1), NumbersUpTo(rows, c, k);
      assert forall i :: 0 <= i < |before| ==> before[i] == ns[i];
      NumbersMeaning(rows, c, k - 1);
      assert rows[k - 1].change == c ==> ns[|before|] == rows[k - 1].number;
    }
  }

  lemma AcceptsFresh(rows: seq<WaveRow>, c: nat, n: nat)
    requires Consecutive(Numbers(rows, c)) && n > 0
    ensures NextNumber(rows, c) == |Numbers(rows, c)| + 1
    ensures Accepts(rows, WaveRow(c, n)) <==> n > |Numbers(rows, c)|
  {
    var ns := Numbers(rows, c);
    NumbersMeaning(rows, c, |rows|);
    if n <= |ns| { assert ns[n - 1] == n; }
  }

  lemma InsertKeepsNumbers(s: State, p: nat)
    requires Numbered(s) && PcOf(s, p).Inserting?
    ensures Numbered(InsertStep(s, p))
  {
    var pass := s.passes[p];
    var row := WaveRow(pass.change, pass.pc.number);
    AcceptsFresh(s.rows, pass.change, pass.pc.number);
    if Accepts(s.rows, row) {
      var s' := InsertStep(s, p);
      forall c ensures Consecutive(Numbers(s'.rows, c)) && |Numbers(s'.rows, c)| >= |Numbers(s.rows, c)| {
        NumbersAppend(s.rows, row, c);
      }
      forall q | q in s'.passes ensures PassNumbered(s'.rows, s'.passes[q]) {
        assert q != p ==> PassNumbered(s.rows, s.passes[q]);
      }
    }
  }

  lemma ReadKeepsNumbers(s: State, p: nat)
    requires Numbered(s) && PcOf(s, p).Numbering?
    ensures Numbered(ReadStep(s, p))
  {
    assert PassNumbered(s.rows, s.passes[p]);
    AcceptsFresh(s.rows, s.passes[p].change, 1);
  }

  lemma StepKeepsNumbers(s: State, step: Step)
    requires Numbered(s) && Enabled(s, step)
    ensures Numbered(Apply(s, step))
  {
    match step
    case InsertWave(p) => InsertKeepsNumbers(s, p);
    case ReadNumber(p) => ReadKeepsNumbers(s, p);
    case _ => assert Apply(s, step).rows == s.rows;
  }

  lemma {:induction false} RunKeepsNumbers(states: seq<State>, steps: seq<Step>, k: nat)
    requires IsRun(states, steps) && k <= |steps|
    ensures Numbered(states[k])
  {
    if k > 0 {
      RunKeepsNumbers(states, steps, k - 1);
      StepOf(states, steps, k - 1);
      StepKeepsNumbers(states[k - 1], steps[k - 1]);
    }
  }

  // MAIN: in every state of every run, the wave numbers stored for a Change are exactly 1..n,
  // stored in that order.
  lemma WaveNumbersAreExact(states: seq<State>, steps: seq<Step>, k: nat, change: nat)
    requires IsRun(states, steps) && k <= |steps|
    ensures var ns := Numbers(states[k].rows, change);
      ns == seq(|ns|, i => i + 1)
  {
    RunKeepsNumbers(states, steps, k);
    assert Consecutive(Numbers(states[k].rows, change));
  }

  // MAIN: a pass gives up only if five other waves of its Change were numbered meanwhile.
  lemma GivingUpNeedsContention(states: seq<State>, steps: seq<Step>, k: nat, p: nat)
    requires IsRun(states, steps) && k <= |steps| && PcOf(states[k], p).GaveUp?
    ensures |Numbers(states[k].rows, states[k].passes[p].change)| >= states[k].passes[p].began + ATTEMPTS
  {
    RunKeepsNumbers(states, steps, k);
    assert PassNumbered(states[k].rows, states[k].passes[p]);
  }

  // ---------------------------------------------------------------- launch windows

  ghost function WaveOf(pc: Pc): (w: int) {
    match pc
    case Reserving(wave, _) => wave
    case InWindow(wave, _, _) => wave
    case _ => -1
  }

  ghost predicate WavesDistinct(s: State) {
    && (forall p :: p in s.passes ==> WaveOf(s.passes[p].pc) < |s.rows|)
    && forall p, q :: p in s.passes && q in s.passes && p != q && WaveOf(s.passes[p].pc) >= 0 ==>
      WaveOf(s.passes[p].pc) != WaveOf(s.passes[q].pc)
  }

  // Every window is marked with its own wave, and every row is a window's or a leaked one.
  ghost predicate Windowed(s: State) {
    && (forall p :: p in s.passes && s.passes[p].pc.InWindow? ==> s.passes[p].pc.next < |s.passes[p].tasks|)
    && (forall p, t :: Inside(s, p, t) ==>
      t in s.reservations && s.reservations[t] == s.passes[p].pc.wave && t !in s.leaked)
    && (forall t :: t in s.reservations ==> t in s.leaked || exists p :: Inside(s, p, t))
    && s.leaked <= s.reservations.Keys
  }

  ghost predicate Safe(s: State) { WavesDistinct(s) && Windowed(s) }

  // One pass at most inside the window of a Task.
  ghost predicate Exclusive(s: State) {
    forall p, q, t :: Inside(s, p, t) && Inside(s, q, t) ==> p == q
  }

  lemma SafeIsExclusive(s: State)
    requires Safe(s)
    ensures Exclusive(s)
  {
    forall p, q, t | Inside(s, p, t) && Inside(s, q, t) ensures p == q {
      assert WaveOf(s.passes[p].pc) == s.reservations[t] == WaveOf(s.passes[q].pc);
    }
  }

  // A step of p that is outside any window before and after touches no window.
  lemma QuietMove(s: State, s': State, p: nat)
    requires Windowed(s) && s'.reservations == s.reservations && s'.leaked == s.leaked
    requires p !in s.passes || !s.passes[p].pc.InWindow?
    requires p in s'.passes && !s'.passes[p].pc.InWindow?
    requires s'.passes.Keys == s.passes.Keys + {p} && forall q :: q in s.passes && q != p ==>
      s'.passes[q] == s.passes[q]
    ensures Windowed(s')
  {
    assert forall q, t :: Inside(s, q, t) ==> q != p;
    assert forall q, t :: Inside(s', q, t) <==> Inside(s, q, t);
  }

  lemma ReserveKeepsWindows(s: State, p: nat)
    requires Windowed(s) && PcOf(s, p).Reserving?
    ensures Windowed(ReserveStep(s, p))
  {
    var s', pass := ReserveStep(s, p), s.passes[p];
    if pass.pc.next >= |pass.tasks| || pass.tasks[pass.pc.next] in s.reservations {
      QuietMove(s, s', p);
    } else {
      var mine := pass.tasks[pass.pc.next];
      assert Inside(s', p, mine);
      assert forall q, t :: q != p ==> (Inside(s', q, t) <==> Inside(s, q, t));
      forall t | t in s'.reservations && t !in s'.leaked ensures exists q :: Inside(s', q, t) {
        if t != mine {
          var q :| Inside(s, q, t);
          assert Inside(s', q, t);
        }
      }
    }
  }

  lemma LeaveKeepsWindows(s: State, s': State, p: nat, t: nat)
    requires Safe(s) && Inside(s, p, t)
    requires || (s'.reservations == s.reservations - {t} && s'.leaked == s.leaked)
             || (s'.reservations == s.reservations && s'.leaked == s.leaked + {t})
    requires p in s'.passes && !s'.passes[p].pc.InWindow?
    requires s'.passes.Keys == s.passes.Keys && forall q :: q in s.passes && q != p ==> s'.passes[q] == s.passes[q]
    ensures Windowed(s')
  {
    SafeIsExclusive(s);
    assert forall q, u :: Inside(s', q, u) <==> Inside(s, q, u) && q != p;
    assert forall q, u :: Inside(s', q, u) ==> u != t;
    forall u | u in s'.reservations && u !in s'.leaked ensures exists q :: Inside(s', q, u) {
      var q :| Inside(s, q, u);
      assert Inside(s', q, u);
    }
  }

  lemma NumberingKeepsWindows(s: State, step: Step)
    requires Windowed(s) && Enabled(s, step) && (step.ReadNumber? || step.InsertWave?)
    ensures Windowed(Apply(s, step))
  {
    QuietMove(s, Apply(s, step), step.pass);
  }

  lemma StartKeepsWindows(s: State, step: Step)
    requires Windowed(s) && Enabled(s, step) && step.Start?
    ensures Windowed(Apply(s, step))
  {
    QuietMove(s, Apply(s, step), step.pass);
  }

  lemma LaunchKeepsWindows(s: State, p: nat, starts: bool)
    requires Windowed(s) && PcOf(s, p).InWindow?
    ensures Windowed(LaunchStep(s, p, starts))
  {
    assert forall q, t :: Inside(LaunchStep(s, p, starts), q, t) <==> Inside(s, q, t);
  }

  lemma EndKeepsWindows(s: State, t: nat)
    requires Windowed(s)
    ensures Windowed(s.(live := s.live - multiset{t}))
  {
    assert forall q, u :: Inside(s.(live := s.live - multiset{t}), q, u) <==> Inside(s, q, u);
  }

  lemma LeavingKeepsWindows(s: State, step: Step)
    requires Safe(s) && Enabled(s, step) && (step.Release? || step.Die?)
    ensures Windowed(Apply(s, step))
  {
    var p := step.pass;
    if s.passes[p].pc.InWindow? {
      LeaveKeepsWindows(s, Apply(s, step), p, s.passes[p].tasks[s.passes[p].pc.next]);
    } else {
      QuietMove(s, Apply(s, step), p);
    }
  }

  // While the process is down there are no passes.
  ghost predicate DownIsIdle(s: State) { s.up || s.passes == map[] }

  lemma StepKeepsWindows(s: State, step: Step)
    requires Safe(s) && DownIsIdle(s) && Enabled(s, step)
    ensures Windowed(Apply(s, step))
  {
    match step
    case Start(_, _, _) => StartKeepsWindows(s, step);
    case ReadNumber(_) => NumberingKeepsWindows(s, step);
    case InsertWave(_) => NumberingKeepsWindows(s, step);
    case Reserve(p) => ReserveKeepsWindows(s, p);
    case Launch(p, starts) => LaunchKeepsWindows(s, p, starts);
    case Release(_) => LeavingKeepsWindows(s, step);
    case Die(_) => LeavingKeepsWindows(s, step);
    case SessionEnds(t) => EndKeepsWindows(s, t);
    case Crash =>
    case Reconcile =>
  }

  // A step of one pass that keeps its wave, or gives it the next row.
  lemma MoveKeepsWaves(s: State, s': State, p: nat)
    requires WavesDistinct(s)
    requires p in s'.passes && s'.passes.Keys == s.passes.Keys + {p}
    requires forall q :: q in s.passes && q != p ==> s'.passes[q] == s.passes[q]
    requires |s'.rows| >= |s.rows|
    requires var w := WaveOf(s'.passes[p].pc);
      w < 0 || (p in s.passes && w == WaveOf(s.passes[p].pc)) || |s.rows| <= w < |s'.rows|
    ensures WavesDistinct(s')
  {
  }

  lemma NumberingKeepsWaves(s: State, step: Step)
    requires WavesDistinct(s) && Enabled(s, step) && (step.ReadNumber? || step.InsertWave?)
    ensures WavesDistinct(Apply(s, step))
  {
    MoveKeepsWaves(s, Apply(s, step), step.pass);
  }

  lemma LaunchingKeepsWaves(s: State, step: Step)
    requires WavesDistinct(s) && Enabled(s, step) && (step.Reserve? || step.Launch? || step.Release?)
    ensures WavesDistinct(Apply(s, step))
  {
    MoveKeepsWaves(s, Apply(s, step), step.pass);
  }

  lemma StepKeepsWaves(s: State, step: Step)
    requires WavesDistinct(s) && Enabled(s, step)
    ensures WavesDistinct(Apply(s, step))
  {
    match step
    case Start(p, _, _) => MoveKeepsWaves(s, Apply(s, step), p);
    case ReadNumber(_) => NumberingKeepsWaves(s, step);
    case InsertWave(_) => NumberingKeepsWaves(s, step);
    case Die(p) => MoveKeepsWaves(s, Apply(s, step), p);
    case SessionEnds(_) =>
    case Crash =>
    case Reconcile =>
    case _ => LaunchingKeepsWaves(s, step);
  }

  lemma {:induction false} RunIsSafe(states: seq<State>, steps: seq<Step>, k: nat)
    requires IsRun(states, steps) && k <= |steps|
    ensures Safe(states[k]) && DownIsIdle(states[k])
  {
    if k > 0 {
      RunIsSafe(states, steps, k - 1);
      StepOf(states, steps, k - 1);
      StepKeepsWaves(states[k - 1], steps[k - 1]);
      StepKeepsWindows(states[k - 1], steps[k - 1]);
    }
  }

  // MAIN: windows of one Task never overlap, in any state of any run.
  lemma WindowsNeverOverlap(states: seq<State>, steps: seq<Step>, k: nat)
    requires IsRun(states, steps) && k <= |steps|
    ensures Exclusive(states[k])
  {
    RunIsSafe(states, steps, k);
    SafeIsExclusive(states[k]);
  }

  // MAIN: the rows are exactly the open windows and the leaked rows; so rows and windows agree if
  // and only if nothing leaked, and once no pass is in a window only leaked rows are left.
  lemma RowsMarkWindows(states: seq<State>, steps: seq<Step>, k: nat)
    requires IsRun(states, steps) && k <= |steps|
    ensures var s := states[k];
      && (forall t :: t in s.reservations <==> t in s.leaked || exists p :: Inside(s, p, t))
      && ((forall t :: t in s.reservations <==> exists p :: Inside(s, p, t)) <==> s.leaked == {})
      && ((forall p :: p in s.passes ==> !s.passes[p].pc.InWindow?) ==> s.reservations.Keys == s.leaked)
  {
    var s := states[k];
    RunIsSafe(states, steps, k);
    if t :| t in s.leaked { assert t in s.reservations && !exists p :: Inside(s, p, t); }
  }

  // Only a death inside a window or a crash leaks a row.
  lemma {:induction false} NothingLeaks(states: seq<State>, steps: seq<Step>, k: nat)
    requires IsRun(states, steps) && k <= |steps|
    requires forall i :: 0 <= i < k ==> !steps[i].Crash? && !(steps[i].Die? && PcOf(states[i], steps[i].pass).InWindow?)
    ensures states[k].leaked == {}
  {
    if k > 0 { NothingLeaks(states, steps, k - 1); StepOf(states, steps, k - 1); }
  }

  // MAIN: without such a death the table is empty whenever every pass has finished.
  lemma EmptyWhenFinished(states: seq<State>, steps: seq<Step>, k: nat)
    requires IsRun(states, steps) && k <= |steps|
    requires forall i :: 0 <= i < k ==> !steps[i].Crash? && !(steps[i].Die? && PcOf(states[i], steps[i].pass).InWindow?)
    requires forall p :: p in states[k].passes ==> states[k].passes[p].pc.Finished? || states[k].passes[p].pc.GaveUp?
    ensures states[k].reservations == map[]
  {
    NothingLeaks(states, steps, k);
    RowsMarkWindows(states, steps, k);
    assert forall t :: t in states[k].reservations ==> t in states[k].leaked;
  }

  // Only a crash takes the process down, and it leaves the tables as they are.
  lemma DownMeansCrash(s: State, step: Step, s': State)
    requires Leads(s, step, s') && DownIsIdle(s) && !s'.up
    ensures step.Crash? && s'.rows == s.rows && s'.reservations == s.reservations
  {
  }

  // MAIN: whatever the crash left behind, nothing runs between it and the reconciliation, after
  // which the table is empty and every Task can be reserved again.
  lemma EmptyAfterReconcile(states: seq<State>, steps: seq<Step>, k: nat)
    requires IsRun(states, steps) && 0 < k <= |steps| && steps[k - 1].Reconcile?
    ensures k > 1 && steps[k - 2].Crash? && states[k].rows == states[k - 2].rows
    ensures states[k].reservations == map[] && states[k].leaked == {} && states[k].passes == map[]
  {
    RunIsSafe(states, steps, k - 1);
    StepOf(states, steps, k - 1);
    RunIsSafe(states, steps, k - 2);
    StepOf(states, steps, k - 2);
    DownMeansCrash(states[k - 2], steps[k - 2], states[k - 1]);
  }

  // After a crash nothing can happen but the reconciliation, and the tables are as the crash found them.
  lemma OnlyReconcileAfterCrash(states: seq<State>, steps: seq<Step>, k: nat, step: Step)
    requires IsRun(states, steps) && k < |steps| && steps[k] == Crash
    ensures Enabled(states[k + 1], step) <==> step == Reconcile
    ensures var s, s' := states[k], states[k + 1];
      s'.rows == s.rows && s'.reservations == s.reservations && s'.leaked == s.reservations.Keys
  {
    StepOf(states, steps, k);
  }

  // ---------------------------------------------------------------- what one pass does

  // How often the pass tried to store its wave, and how often it tried to reserve a Task, since it started.
  ghost function Inserts(steps: seq<Step>, k: nat, p: nat): nat
    requires k <= |steps|
  {
    if k == 0 || (steps[k - 1].Start? && steps[k - 1].pass == p) then 0
    else Inserts(steps, k - 1, p) + if steps[k - 1] == InsertWave(p) then 1 else 0
  }

  ghost function Reserves(steps: seq<Step>, k: nat, p: nat): nat
    requires k <= |steps|
  {
    if k == 0 || (steps[k - 1].Start? && steps[k - 1].pass == p) then 0
    else Reserves(steps, k - 1, p) + if steps[k - 1] == Reserve(p) then 1 else 0
  }

  // Where the pass stands after so many tries.
  ghost predicate Stands(pass: Pass, inserts: nat, reserves: nat) {
    match pass.pc
    case Numbering(attempt) => attempt == inserts <= ATTEMPTS && reserves == 0
    case Inserting(attempt, _) => attempt == inserts < ATTEMPTS && reserves == 0
    case Reserving(_, next) => 1 <= inserts <= ATTEMPTS && reserves == next
    case InWindow(_, next, _) => 1 <= inserts <= ATTEMPTS && reserves == next + 1
    case Finished => inserts <= ATTEMPTS
    case GaveUp => inserts == ATTEMPTS && reserves == 0
  }

  ghost predicate AllStand(s: State, steps: seq<Step>, k: nat)
    requires k <= |steps|
  {
    forall p :: p in s.passes ==> Stands(s.passes[p], Inserts(steps, k, p), Reserves(steps, k, p))
  }

  // The steps that count.
  ghost predicate Tries(step: Step) { step.ReadNumber? || step.InsertWave? || step.Reserve? }

  lemma PassStands(s: State, step: Step, inserts: nat, reserves: nat)
    requires Enabled(s, step) && Tries(step) && Stands(s.passes[step.pass], inserts, reserves)
    ensures step.pass in Apply(s, step).passes
    ensures Stands(Apply(s, step).passes[step.pass], inserts + (if step.InsertWave? then 1 else 0),
      reserves + if step.Reserve? then 1 else 0)
  {
  }

  // A try of one pass changes nothing for the others.
  lemma OthersStay(s: State, step: Step, p: nat)
    requires Enabled(s, step) && Tries(step) && p in Apply(s, step).passes && p != step.pass
    ensures p in s.passes && Apply(s, step).passes[p] == s.passes[p]
  {
  }

  lemma TryKeepsStanding(s: State, step: Step, steps: seq<Step>, k: nat, next: nat)
    requires k < |steps| && next == k + 1 && steps[k] == step && AllStand(s, steps, k)
    requires Enabled(s, step) && Tries(step)
    ensures AllStand(Apply(s, step), steps, next)
  {
    var s' := Apply(s, step);
    forall p | p in s'.passes ensures Stands(s'.passes[p], Inserts(steps, next, p), Reserves(steps, next, p)) {
      if p == step.pass {
        PassStands(s, step, Inserts(steps, k, p), Reserves(steps, k, p));
      } else {
        OthersStay(s, step, p);
      }
    }
  }

  lemma OtherKeepsStanding(s: State, step: Step, steps: seq<Step>, k: nat, next: nat)
    requires k < |steps| && next == k + 1 && steps[k] == step && AllStand(s, steps, k)
    requires DownIsIdle(s) && Enabled(s, step) && !Tries(step)
    ensures AllStand(Apply(s, step), steps, next)
  {
  }

  lemma RunStands(states: seq<State>, steps: seq<Step>, k: nat)
    requires IsRun(states, steps) && k <= |steps|
    ensures AllStand(states[k], steps, k)
  {
    for i := 0 to k
      invariant AllStand(states[i], steps, i)
    {
      var next := i + 1;
      RunIsSafe(states, steps, i);
      StepOf(states, steps, i);
      if Tries(steps[i]) {
        TryKeepsStanding(states[i], steps[i], steps, i, next);
      } else {
        OtherKeepsStanding(states[i], steps[i], steps, i, next);
      }
    }
  }

  // MAIN: in every run a pass tries at most five times to store its wave, and gives up exactly when it would
  // have to try a sixth time.
  lemma FiveAttempts(states: seq<State>, steps: seq<Step>, k: nat, p: nat)
    requires IsRun(states, steps) && k < |steps| && p in states[k].passes
    ensures Inserts(steps, k, p) <= 5
    ensures steps[k] == ReadNumber(p) ==>
      p in states[k + 1].passes && (states[k + 1].passes[p].pc == GaveUp <==> Inserts(steps, k, p) == 5)
  {
    RunStands(states, steps, k);
    StepOf(states, steps, k);
  }

  // MAIN: in every run a pass tries to reserve the Tasks of its plan one after the other, each once: it gets
  // into the window of the next one exactly when that is not reserved, and is finished after the last.
  lemma TasksInOrder(states: seq<State>, steps: seq<Step>, k: nat, p: nat)
    requires IsRun(states, steps) && k < |steps| && steps[k] == Reserve(p)
    ensures p in states[k].passes
    ensures var s, s', n := states[k], states[k + 1], Reserves(steps, k, p);
      var tasks := s.passes[p].tasks;
      if n < |tasks| then (Inside(s', p, tasks[n]) <==> tasks[n] !in s.reservations)
      else s'.passes[p].pc == Finished
  {
    RunStands(states, steps, k);
    StepOf(states, steps, k);
  }

  // ---------------------------------------------------------------- stale plans

  // Where the pass stands in its plan: the Tasks from here on are still to be launched.
  ghost function Position(pc: Pc): nat {
    match pc
    case Reserving(_, next) => next
    case InWindow(_, next, launched) => if launched then next + 1 else next
    case _ => 0
  }

  // The pass holds a plan with Task t still ahead.
  ghost predicate Ahead(pass: Pass, t: nat) {
    && !pass.pc.Finished? && !pass.pc.GaveUp?
    && exists i :: Position(pass.pc) <= i < |pass.tasks| && pass.tasks[i] == t
  }

  ghost function Holders(s: State, t: nat): set<nat> { set p | p in s.passes && Ahead(s.passes[p], t) }

  // At no time do more than k passes hold Task t.
  ghost predicate OverlapWithin(states: seq<State>, t: nat, k: nat) {
    forall i :: 0 <= i < |states| ==> |Holders(states[i], t)| <= k
  }

  ghost predicate PlansDistinct(s: State) { forall p :: p in s.passes ==> Distinct(s.passes[p].tasks) }

  // The sessions of t and the passes that may still add one.
  ghost predicate SessionsBound(s: State, t: nat, k: nat) { s.live[t] + |Holders(s, t)| <= k }

  lemma SmallerSet(a: set<nat>, b: set<nat>)
    requires a <= b
    ensures |a| <= |b|
  {
    assert b == a + (b - a);
  }

  // A step that makes nobody a new holder and adds no session.
  lemma FewerHolders(s: State, s': State, t: nat, k: nat)
    requires SessionsBound(s, t, k) && s'.live[t] <= s.live[t]
    requires forall p :: p in s'.passes && Ahead(s'.passes[p], t) ==> p in s.passes && Ahead(s.passes[p], t)
    ensures SessionsBound(s', t, k)
  {
    SmallerSet(Holders(s', t), Holders(s, t));
  }

  lemma LaunchKeepsBound(s: State, p: nat, starts: bool, t: nat, k: nat)
    requires SessionsBound(s, t, k) && PlansDistinct(s) && Enabled(s, Launch(p, starts))
    ensures SessionsBound(LaunchStep(s, p, starts), t, k)
  {
    var s', pass := LaunchStep(s, p, starts), s.passes[p];
    assert forall q :: q in s'.passes && q != p ==> s'.passes[q] == s.passes[q];
    if pass.pc.next < |pass.tasks| && pass.tasks[pass.pc.next] == t {
      assert p in Holders(s, t) && !Ahead(s'.passes[p], t);
      assert Holders(s', t) == Holders(s, t) - {p};
    } else {
      FewerHolders(s, s', t, k);
    }
  }

  lemma StartKeepsBound(s: State, step: Step, t: nat, k: nat)
    requires SessionsBound(s, t, k) && step.Start? && Enabled(s, step) && |Holders(Apply(s, step), t)| <= k
    ensures SessionsBound(Apply(s, step), t, k)
  {
    var s' := Apply(s, step);
    if t !in step.tasks {
      assert !Ahead(s'.passes[step.pass], t);
      FewerHolders(s, s', t, k);
    }
  }

  // A pass that only moves forward in its plan, or leaves it, becomes no new holder.
  lemma ForwardKeepsBound(s: State, s': State, p: nat, t: nat, k: nat)
    requires SessionsBound(s, t, k) && s'.live == s.live && p in s.passes
    requires s'.passes.Keys == s.passes.Keys && forall q :: q in s.passes && q != p ==> s'.passes[q] == s.passes[q]
    requires s'.passes[p].tasks == s.passes[p].tasks && !s.passes[p].pc.Finished? && !s.passes[p].pc.GaveUp?
    requires s'.passes[p].pc.Finished? || s'.passes[p].pc.GaveUp? ||
      Position(s'.passes[p].pc) >= Position(s.passes[p].pc)
    ensures SessionsBound(s', t, k)
  {
    FewerHolders(s, s', t, k);
  }

  lemma NumberingKeepsBound(s: State, step: Step, t: nat, k: nat)
    requires SessionsBound(s, t, k) && Enabled(s, step) && (step.ReadNumber? || step.InsertWave?)
    ensures SessionsBound(Apply(s, step), t, k)
  {
    ForwardKeepsBound(s, Apply(s, step), step.pass, t, k);
  }

  lemma WindowKeepsBound(s: State, step: Step, t: nat, k: nat)
    requires SessionsBound(s, t, k) && Enabled(s, step) && (step.Reserve? || step.Release?)
    ensures SessionsBound(Apply(s, step), t, k)
  {
    ForwardKeepsBound(s, Apply(s, step), step.pass, t, k);
  }

  lemma DieKeepsBound(s: State, p: nat, t: nat, k: nat)
    requires SessionsBound(s, t, k) && p in s.passes
    ensures SessionsBound(DieStep(s, p), t, k)
  {
    FewerHolders(s, DieStep(s, p), t, k);
  }

  lemma StepKeepsBound(s: State, step: Step, t: nat, k: nat)
    requires SessionsBound(s, t, k) && PlansDistinct(s) && Enabled(s, step) && |Holders(Apply(s, step), t)| <= k
    ensures SessionsBound(Apply(s, step), t, k)
  {
    match step
    case Start(_, _, _) => StartKeepsBound(s, step, t, k);
    case Launch(p, starts) => LaunchKeepsBound(s, p, starts, t, k);
    case ReadNumber(_) => NumberingKeepsBound(s, step, t, k);
    case InsertWave(_) => NumberingKeepsBound(s, step, t, k);
    case Reserve(_) => WindowKeepsBound(s, step, t, k);
    case Release(_) => WindowKeepsBound(s, step, t, k);
    case Die(p) => DieKeepsBound(s, p, t, k);
    case SessionEnds(_) => FewerHolders(s, Apply(s, step), t, k);
    case Crash => FewerHolders(s, Apply(s, step), t, k);
    case Reconcile => FewerHolders(s, Apply(s, step), t, k);
  }

  // MAIN: when at most k passes hold a plan with Task t still ahead at once, t never has more than k
  // live sessions, in any state of any run.
  lemma SessionsWithinOverlap(states: seq<State>, steps: seq<Step>, t: nat, k: nat, i: nat)
    requires IsRun(states, steps) && OverlapWithin(states, t, k) && i <= |steps|
    ensures states[i].live[t] <= k
  {
    RunKeepsBound(states, steps, t, k, i);
  }

  lemma {:induction false} RunKeepsBound(states: seq<State>, steps: seq<Step>, t: nat, k: nat, i: nat)
    requires IsRun(states, steps) && OverlapWithin(states, t, k) && i <= |steps|
    ensures SessionsBound(states[i], t, k) && PlansDistinct(states[i])
  {
    if i == 0 {
      assert Holders(Empty, t) == {};
    } else {
      RunKeepsBound(states, steps, t, k, i - 1);
      StepOf(states, steps, i - 1);
      StepKeepsPlans(states[i - 1], steps[i - 1]);
      StepKeepsBound(states[i - 1], steps[i - 1], t, k);
    }
  }

  // MAIN: a Task gets a session exactly when a pass inside its window launches it and the launch succeeds, one
  // for each, and loses one exactly when a session of it ends, or all at a reconciliation.
  lemma SessionsExactly(states: seq<State>, steps: seq<Step>, k: nat, t: nat)
    requires IsRun(states, steps) && k < |steps|
    ensures var s, step, s' := states[k], steps[k], states[k + 1];
      s'.live[t] ==
        if step.Reconcile? then 0
        else if step.Launch? && step.starts && Inside(s, step.pass, t) then s.live[t] + 1
        else if step == SessionEnds(t) then s.live[t] - 1
        else s.live[t]
  {
    StepOf(states, steps, k);
    RunIsSafe(states, steps, k);
    var s, step := states[k], steps[k];
    match step
    case ReadNumber(_) => NumberingKeepsSessions(s, step);
    case InsertWave(_) => NumberingKeepsSessions(s, step);
    case _ =>
  }

  lemma NumberingKeepsSessions(s: State, step: Step)
    requires Enabled(s, step) && (step.ReadNumber? || step.InsertWave?)
    ensures Apply(s, step).live == s.live
  {
  }

  // No step changes a plan.
  ghost predicate SamePlans(s: State, s': State) {
    forall q :: q in s'.passes ==> q in s.passes && s'.passes[q].tasks == s.passes[q].tasks
  }

  lemma NumberingKeepsPlans(s: State, step: Step)
    requires Enabled(s, step) && (step.ReadNumber? || step.InsertWave?)
    ensures SamePlans(s, Apply(s, step))
  {
  }

  lemma WindowKeepsPlans(s: State, step: Step)
    requires Enabled(s, step) && (step.Reserve? || step.Launch? || step.Release?)
    ensures SamePlans(s, Apply(s, step))
  {
  }

  lemma StepKeepsPlans(s: State, step: Step)
    requires PlansDistinct(s) && Enabled(s, step)
    ensures PlansDistinct(Apply(s, step))
  {
    match step
    case ReadNumber(_) => NumberingKeepsPlans(s, step);
    case InsertWave(_) => NumberingKeepsPlans(s, step);
    case Reserve(_) => WindowKeepsPlans(s, step);
    case Launch(_, _) => WindowKeepsPlans(s, step);
    case Release(_) => WindowKeepsPlans(s, step);
    case _ =>
  }

  // ---------------------------------------------------------------- the bound is tight

  ghost predicate ReachesWithin(s: State, t: nat, k: nat) {
    exists states, steps :: IsRun(states, steps) && OverlapWithin(states, t, k) && states[|steps|] == s
  }

  lemma ReachOne(s: State, step: Step, s': State, t: nat, k: nat)
    requires ReachesWithin(s, t, k) && Leads(s, step, s') && |Holders(s', t)| <= k
    ensures ReachesWithin(s', t, k)
  {
    var states: seq<State>, steps: seq<Step> :| IsRun(states, steps) && OverlapWithin(states, t, k) &&
      states[|steps|] == s;
    assert IsRun(states + [s'], steps + [step]) && (states + [s'])[|steps + [step]|] == s';
  }

  // The passes 0..n-1, all with the plan [t]: those before i are done, i stands at pc, the rest begin.
  ghost function Team(c: nat, t: nat, n: nat, i: nat, pc: Pc): map<nat, Pass> {
    map p | 0 <= p < n :: Pass(c, [t], if p < i then Reserving(p, 1) else if p == i then pc else Numbering(0), 0)
  }

  ghost function RowsTo(c: nat, n: nat): seq<WaveRow> { seq(n, (i: nat) => WaveRow(c, i + 1)) }

  ghost function Sessions(t: nat, n: nat): multiset<nat> { multiset{}[t := n] }

  // i passes have launched; pass i of n stands at pc, with r rows, these reservations and l sessions.
  ghost function Stage(c: nat, t: nat, n: nat, i: nat, pc: Pc, r: nat, held: map<nat, nat>, l: nat): State {
    State(RowsTo(c, r), held, Team(c, t, n, i, pc), true, Sessions(t, l), {})
  }

  ghost function Below(n: nat): (ids: set<nat>)
    ensures |ids| == n && forall p: nat :: p in ids <==> p < n
  {
    if n == 0 then {} else Below(n - 1) + {n - 1}
  }

  lemma StageOverlap(c: nat, t: nat, n: nat, i: nat, pc: Pc, r: nat, held: map<nat, nat>, l: nat)
    ensures |Holders(Stage(c, t, n, i, pc, r, held, l), t)| <= n
  {
    var s := Stage(c, t, n, i, pc, r, held, l);
    SmallerSet(Holders(s, t), Below(n));
  }

  lemma {:induction false} RowsNumbered(c: nat, n: nat)
    ensures Numbers(RowsTo(c, n), c) == seq(n, i => i + 1)
  {
    if n > 0 {
      RowsNumbered(c, n - 1);
      assert RowsTo(c, n) == RowsTo(c, n - 1) + [WaveRow(c, n)];
      NumbersAppend(RowsTo(c, n - 1), WaveRow(c, n), c);
    }
  }

  lemma TeamMoves(c: nat, t: nat, n: nat, i: nat, pc: Pc, pc': Pc)
    requires i < n
    ensures Team(c, t, n, i, pc)[i := Pass(c, [t], pc', 0)] == Team(c, t, n, i, pc')
  {
  }

  // One step of pass i, given what it does to the tables.
  lemma StageStep(c: nat, t: nat, n: nat, k: nat, i: nat, pc: Pc, r: nat, held: map<nat, nat>, l: nat,
                                     step: Step, pc': Pc, r': nat, held': map<nat, nat>, l': nat)
    requires i < n <= k && ReachesWithin(Stage(c, t, n, i, pc, r, held, l), t, k)
    requires Leads(Stage(c, t, n, i, pc, r, held, l), step, Stage(c, t, n, i, pc', r', held', l'))
    ensures ReachesWithin(Stage(c, t, n, i, pc', r', held', l'), t, k)
  {
    StageOverlap(c, t, n, i, pc', r', held', l');
    ReachOne(Stage(c, t, n, i, pc, r, held, l), step, Stage(c, t, n, i, pc', r', held', l'), t, k);
  }

  lemma ReadLeads(c: nat, t: nat, n: nat, i: nat)
    requires i < n
    ensures Leads(Stage(c, t, n, i, Numbering(0), i, map[], i), ReadNumber(i),
      Stage(c, t, n, i, Inserting(0, i + 1), i, map[], i))
  {
    RowsNumbered(c, i);
    AcceptsFresh(RowsTo(c, i), c, i + 1);
    TeamMoves(c, t, n, i, Numbering(0), Inserting(0, i + 1));
  }

  lemma InsertLeads(c: nat, t: nat, n: nat, i: nat)
    requires i < n
    ensures Leads(Stage(c, t, n, i, Inserting(0, i + 1), i, map[], i), InsertWave(i),
      Stage(c, t, n, i, Reserving(i, 0), i + 1, map[], i))
  {
    RowsNumbered(c, i);
    AcceptsFresh(RowsTo(c, i), c, i + 1);
    TeamMoves(c, t, n, i, Inserting(0, i + 1), Reserving(i, 0));
    assert RowsTo(c, i + 1) == RowsTo(c, i) + [WaveRow(c, i + 1)];
  }

  lemma WindowLeads(c: nat, t: nat, n: nat, i: nat)
    requires i < n
    ensures Leads(Stage(c, t, n, i, Reserving(i, 0), i + 1, map[], i), Reserve(i),
      Stage(c, t, n, i, InWindow(i, 0, false), i + 1, map[t := i], i))
    ensures Leads(Stage(c, t, n, i, InWindow(i, 0, false), i + 1, map[t := i], i), Launch(i, true),
                  Stage(c, t, n, i, InWindow(i, 0, true), i + 1, map[t := i], i + 1))
  {
    TeamMoves(c, t, n, i, Reserving(i, 0), InWindow(i, 0, false));
    TeamMoves(c, t, n, i, InWindow(i, 0, false), InWindow(i, 0, true));
    assert Sessions(t, i + 1) == Sessions(t, i) + multiset{t};
  }

  lemma ReleaseLeads(c: nat, t: nat, n: nat, i: nat)
    requires i < n
    ensures Leads(Stage(c, t, n, i, InWindow(i, 0, true), i + 1, map[t := i], i + 1), Release(i),
      Stage(c, t, n, i, Reserving(i, 1), i + 1, map[], i + 1))
  {
    TeamMoves(c, t, n, i, InWindow(i, 0, true), Reserving(i, 1));
    assert map[t := i] - {t} == map[];
  }

  lemma PassNumbers(c: nat, t: nat, n: nat, i: nat)
    requires i < n && ReachesWithin(Stage(c, t, n, i, Numbering(0), i, map[], i), t, n)
    ensures ReachesWithin(Stage(c, t, n, i, Reserving(i, 0), i + 1, map[], i), t, n)
  {
    ReadLeads(c, t, n, i);
    StageStep(c, t, n, n, i, Numbering(0), i, map[], i, ReadNumber(i), Inserting(0, i + 1), i, map[], i);
    InsertLeads(c, t, n, i);
    StageStep(c, t, n, n, i, Inserting(0, i + 1), i, map[], i, InsertWave(i), Reserving(i, 0), i + 1, map[], i);
  }

  lemma PassEnters(c: nat, t: nat, n: nat, i: nat)
    requires i < n && ReachesWithin(Stage(c, t, n, i, Reserving(i, 0), i + 1, map[], i), t, n)
    ensures ReachesWithin(Stage(c, t, n, i, InWindow(i, 0, true), i + 1, map[t := i], i + 1), t, n)
  {
    WindowLeads(c, t, n, i);
    StageStep(c, t, n, n, i, Reserving(i, 0), i + 1, map[], i, Reserve(i), InWindow(i, 0, false), i + 1, map[t := i],
      i);
    StageStep(c, t, n, n, i, InWindow(i, 0, false), i + 1, map[t := i], i, Launch(i, true), InWindow(i, 0, true), i + 1,
      map[t := i], i + 1);
  }

  lemma PassLeaves(c: nat, t: nat, n: nat, i: nat)
    requires i < n && ReachesWithin(Stage(c, t, n, i, InWindow(i, 0, true), i + 1, map[t := i], i + 1), t, n)
    ensures ReachesWithin(Stage(c, t, n, i, Reserving(i, 1), i + 1, map[], i + 1), t, n)
  {
    ReleaseLeads(c, t, n, i);
    StageStep(c, t, n, n, i, InWindow(i, 0, true), i + 1, map[t := i], i + 1, Release(i), Reserving(i, 1), i + 1, map[],
      i + 1);
  }

  // Pass i carries out its plan from beginning to end.
  lemma PassLaunches(c: nat, t: nat, n: nat, i: nat)
    requires i < n && ReachesWithin(Stage(c, t, n, i, Numbering(0), i, map[], i), t, n)
    ensures ReachesWithin(Stage(c, t, n, i + 1, Numbering(0), i + 1, map[], i + 1), t, n)
  {
    PassNumbers(c, t, n, i);
    PassEnters(c, t, n, i);
    PassLeaves(c, t, n, i);
    assert Team(c, t, n, i, Reserving(i, 1)) == Team(c, t, n, i + 1, Numbering(0));
  }

  // n passes plan before any of them launches.
  lemma {:induction false} PassesPlan(c: nat, t: nat, n: nat, k: nat)
    requires n <= k
    ensures ReachesWithin(Stage(c, t, n, 0, Numbering(0), 0, map[], 0), t, k)
  {
    if n == 0 {
      assert Stage(c, t, 0, 0, Numbering(0), 0, map[], 0) == Empty;
      assert Holders(Empty, t) == {};
      assert IsRun([Empty], []);
      assert OverlapWithin([Empty], t, k);
    } else {
      var before, after := Stage(c, t, n - 1, 0, Numbering(0), 0, map[], 0),
        Stage(c, t, n, 0, Numbering(0), 0, map[], 0);
      PassesPlan(c, t, n - 1, k);
      assert after.passes == before.passes[n - 1 := Pass(c, [t], Numbering(0), 0)];
      assert RowsTo(c, 0) == [];
      StageOverlap(c, t, n, 0, Numbering(0), 0, map[], 0);
      ReachOne(before, Start(n - 1, c, [t]), after, t, k);
    }
  }

  // The bound is tight: n stale plans of one Task give it n live sessions, for every n.
  lemma OverlapIsTight(c: nat, t: nat, n: nat)
    ensures exists s :: ReachesWithin(s, t, n) && s.live[t] == n
  {
    PassesPlan(c, t, n, n);
    for i := 0 to n
      invariant ReachesWithin(Stage(c, t, n, i, Numbering(0), i, map[], i), t, n)
    {
      PassLaunches(c, t, n, i);
    }
    assert Sessions(t, n)[t] == n;
  }

  // Two passes plan the same Task while it has no session; the second launches it although the first
  // already has, and it has two live sessions.
  lemma StalePlanLaunchesTwice(c: nat, t: nat)
    ensures exists s :: ReachesWithin(s, t, 2) && s.live[t] == 2
  {
    OverlapIsTight(c, t, 2);
  }

  // MAIN: exclusive windows do not mean one session. Task t has at most one live session in every run
  // whose passes overlap on it at most k times if and only if k is at most one.
  lemma OneSessionExactly(t: nat, k: nat)
    ensures (forall s :: ReachesWithin(s, t, k) ==> s.live[t] <= 1) <==> k <= 1
  {
    forall s | ReachesWithin(s, t, k) ensures s.live[t] <= k {
      var states: seq<State>, steps: seq<Step> :| IsRun(states, steps) && OverlapWithin(states, t, k) &&
        states[|steps|] == s;
      SessionsWithinOverlap(states, steps, t, k, |steps|);
    }
    OverlapIsTight(0, t, k);
  }

  // ---------------------------------------------------------------- the tables, and one pass alone

  datatype Placement = Released | Launched | Failed
  datatype WaveStatus = AllRunning | Partial | NoneLaunched

  // What becomes of one planned Task when nothing else runs.
  function PlacementOf(reserved: set<nat>, launch: nat -> bool, t: nat): Placement {
    if t in reserved then Released else if launch(t) then Launched else Failed
  }

  lemma {:induction false} MaxBounds(rows: seq<WaveRow>, change: nat, k: nat, n: nat)
    requires k <= |rows| && n > MaxUpTo(rows, change, k)
    ensures forall i :: 0 <= i < k ==> rows[i] != WaveRow(change, n)
  {
    if k > 0 { MaxBounds(rows, change, k - 1, n); }
  }

  class Tables {
    var rows: seq<WaveRow>
    var reservations: map<nat, nat>

    constructor ()
      ensures rows == [] && reservations == map[]
    {
      rows, reservations := [], map[];
    }

    method TryInsertWave(change: nat, number: nat) returns (wave: Option<nat>)
      modifies this`rows
      ensures wave == if Accepts(old(rows), WaveRow(change, number)) then Some(|old(rows)|) else None
      ensures rows == if wave.Some? then old(rows) + [WaveRow(change, number)] else old(rows)
    {
      wave := None;
      if WaveRow(change, number) !in rows {
        wave := Some(|rows|);
        rows := rows + [WaveRow(change, number)];
      }
    }

    method TryReserve(t: nat, wave: nat) returns (ok: bool)
      modifies this`reservations
      ensures ok <==> t !in old(reservations)
      ensures reservations == if ok then old(reservations)[t := wave] else old(reservations)
    {
      ok := t !in reservations;
      if ok { reservations := reservations[t := wave]; }
    }

    method Release(t: nat)
      modifies this`reservations
      ensures reservations == old(reservations) - {t}
    {
      reservations := reservations - {t};
    }

    method ReconcileOnStartup()
      modifies this`reservations
      ensures reservations == map[]
    {
      reservations := map[];
    }

    // Alone, the first attempt succeeds whatever rows are stored.
    method AllocateWave(change: nat) returns (wave: Option<nat>)
      modifies this`rows
      ensures wave == Some(|old(rows)|)
      ensures rows == old(rows) + [WaveRow(change, NextNumber(old(rows), change))]
    {
      wave := None;
      var attempt := 0;
      while attempt < ATTEMPTS && wave.None?
        invariant 0 <= attempt <= ATTEMPTS
        invariant wave.None? ==> attempt == 0 && rows == old(rows)
        invariant wave.Some? ==>
          wave.value == |old(rows)| && rows == old(rows) + [WaveRow(change, NextNumber(old(rows), change))]
      {
        var number := NextNumber(rows, change);
        MaxBounds(rows, change, |rows|, number);
        wave := TryInsertWave(change, number);
        attempt := attempt + 1;
      }
    }

    // run_execution_wave for a selection, with nothing else running: one new wave row, every
    // reservation released again, and a status that says how many Tasks were launched.
    method RunExecutionWave(change: nat, tasks: seq<nat>, launch: nat -> bool)
      returns (wave: Option<nat>, placed: seq<Placement>, status: WaveStatus)
      modifies this
      ensures reservations == old(reservations)
      ensures tasks == [] ==> wave.None? && rows == old(rows)
      ensures tasks != [] ==>
        wave == Some(|old(rows)|) && rows == old(rows) + [WaveRow(change, NextNumber(old(rows), change))]
      ensures placed == seq(|tasks|, i requires 0 <= i < |tasks| => PlacementOf(old(reservations).Keys, launch,
        tasks[i]))
      ensures status.NoneLaunched? <==> forall i :: 0 <= i < |placed| ==> placed[i] != Launched
      ensures status.AllRunning? <==> placed != [] && forall i :: 0 <= i < |placed| ==> placed[i] == Launched
    {
      wave, placed, status := None, [], NoneLaunched;
      if tasks == [] {
        return;
      }
      wave := AllocateWave(change);
      var count := 0;
      for i := 0 to |tasks|
        invariant |placed| == i && 0 <= count <= i
        invariant reservations == old(reservations) &&
          rows == old(rows) + [WaveRow(change, NextNumber(old(rows), change))]
        invariant forall j :: 0 <= j < i ==> placed[j] == PlacementOf(old(reservations).Keys, launch, tasks[j])
        invariant count == 0 <==> forall j :: 0 <= j < i ==> placed[j] != Launched
        invariant count == i <==> forall j :: 0 <= j < i ==> placed[j] == Launched
      {
        var ok := TryReserve(tasks[i], wave.value);
        if !ok {
          placed := placed + [Released];
        } else {
          var launched := launch(tasks[i]);
          Release(tasks[i]);
          assert reservations == old(reservations);
          placed := placed + [if launched then Launched else Failed];
          count := if launched then count + 1 else count;
        }
      }
      status := if count == 0 then NoneLaunched else if count < |tasks| then Partial else AllRunning;
    }
  }
}
