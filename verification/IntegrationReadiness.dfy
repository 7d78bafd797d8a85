/**
 One Integration Workspace: sources merged into it, tests run on it, and readiness marked for one
 exact commit and taken back again (the integration handlers of app/main.py, the gate of
 app/services/task_decision_service.py and the runs of app/services/test_runner.py).
 */
module IntegrationReadiness {
  import opened Wrappers

  // ---------------------------------------------------------------- the commit graph

  // Commit c has the parents dag[c], all older than c; the graph only grows.
  type Dag = seq<seq<nat>>

  predicate WellFormed(dag: Dag) {
    forall c, i :: 0 <= c < |dag| && 0 <= i < |dag[c]| ==> dag[c][i] < c
  }

  predicate Ancestor(dag: Dag, a: nat, b: nat)
    decreases b
  {
    a == b || (b < |dag| && exists i :: 0 <= i < |dag[b]| && dag[b][i] < b && Ancestor(dag, a, dag[b][i]))
  }

  predicate Extends(dag': Dag, dag: Dag) {
    |dag| <= |dag'| && forall c :: 0 <= c < |dag| ==> dag'[c] == dag[c]
  }

  lemma {:induction false} AncestorGrows(dag: Dag, dag': Dag, a: nat, b: nat)
    requires Extends(dag', dag) && b < |dag| && Ancestor(dag, a, b)
    ensures Ancestor(dag', a, b)
    decreases b
  {
    if a != b {
      var i :| 0 <= i < |dag[b]| && dag[b][i] < b && Ancestor(dag, a, dag[b][i]);
      AncestorGrows(dag, dag', a, dag[b][i]);
      assert dag'[b][i] == dag[b][i];
    }
  }

  lemma {:induction false} ParentIsAncestor(dag: Dag, a: nat, b: nat, i: nat)
    requires b < |dag| && i < |dag[b]| && dag[b][i] < b && Ancestor(dag, a, dag[b][i])
    ensures Ancestor(dag, a, b)
  {
  }

  lemma {:induction false} AncestorShrinks(dag: Dag, dag': Dag, a: nat, b: nat)
    requires WellFormed(dag) && Extends(dag', dag) && b < |dag| && Ancestor(dag', a, b)
    ensures Ancestor(dag, a, b)
    decreases b
  {
    if a != b {
      var i :| 0 <= i < |dag'[b]| && dag'[b][i] < b && Ancestor(dag', a, dag'[b][i]);
      AncestorShrinks(dag, dag', a, dag'[b][i]);
      ParentIsAncestor(dag, a, b, i);
    }
  }

  lemma {:induction false} AncestorOfAncestor(dag: Dag, a: nat, b: nat, c: nat)
    requires c < |dag| && Ancestor(dag, a, b) && Ancestor(dag, b, c)
    ensures Ancestor(dag, a, c)
    decreases c
  {
    if b != c {
      var i :| 0 <= i < |dag[c]| && dag[c][i] < c && Ancestor(dag, b, dag[c][i]);
      AncestorOfAncestor(dag, a, b, dag[c][i]);
      ParentIsAncestor(dag, a, c, i);
    }
  }

  // ---------------------------------------------------------------- the tables

  datatype Status = Merging | InConflict | Testing | TestsFailed | ReadyForMain

  datatype Row = Row(ready: bool, verified: Option<nat>, status: Status)

  datatype Source = Source(workspace: nat, merged: nat)

  datatype TestStatus = Queued | Running | Pass | Fail | TimedOut | Skipped

  // One click on Run Tests: the tested commit and one row per stage.
  datatype TestRun = TestRun(commit: nat, results: map<nat, TestStatus>)

  // A failed test row, named by its run and stage.
  type Failure = (nat, nat)

  // tips are the source branches; threads the runs whose closing update is still to come; atMark
  // the waivers in force when readiness was last marked.
  datatype State = State(
    dag: Dag, head: nat, tips: map<nat, nat>, row: Row, sources: seq<Source>,
    runs: seq<TestRun>, waived: set<Failure>, threads: nat, atMark: set<Failure>)

  predicate Active(status: TestStatus) { status.Queued? || status.Running? }

  predicate RunActive(run: TestRun) { exists stage :: stage in run.results && Active(run.results[stage]) }

  function Invalidated(s: State): State { s.(row := Row(false, None, Testing)) }

  // ---------------------------------------------------------------- the test gate

  // Index of the newest of the first k runs with a row for this stage at this commit, or -1.
  function Latest(runs: seq<TestRun>, c: nat, stage: nat, k: nat): (i: int)
    requires k <= |runs|
    ensures -1 <= i < k
    ensures i >= 0 ==> runs[i].commit == c && stage in runs[i].results
  {
    if k == 0 then -1
    else if runs[k - 1].commit == c && stage in runs[k - 1].results then k - 1
    else Latest(runs, c, stage, k - 1)
  }

  function Stages(runs: seq<TestRun>, c: nat, k: nat): set<nat>
    requires k <= |runs|
  {
    if k == 0 then {}
    else Stages(runs, c, k - 1) + if runs[k - 1].commit == c then runs[k - 1].results.Keys else {}
  }

  predicate StagePasses(runs: seq<TestRun>, waived: set<Failure>, c: nat, stage: nat) {
    var i := Latest(runs, c, stage, |runs|);
    i >= 0 && (runs[i].results[stage].Pass? || (i, stage) in waived)
  }

  // integration_gate_status at commit c, whose contract requires `required` stages.
  predicate GatePasses(runs: seq<TestRun>, waived: set<Failure>, required: nat, c: nat) {
    || required == 0
    || (&& |Stages(runs, c, |runs|)| >= required
        && forall stage :: stage in Stages(runs, c, |runs|) ==> StagePasses(runs, waived, c, stage))
  }

  // The run has a row for this stage at this commit, and it is the newest that has one.
  ghost predicate HasRow(runs: seq<TestRun>, i: int, c: nat, stage: nat) {
    0 <= i < |runs| && runs[i].commit == c && stage in runs[i].results
  }

  ghost predicate Newest(runs: seq<TestRun>, i: int, c: nat, stage: nat) {
    HasRow(runs, i, c, stage) && forall j :: i < j < |runs| ==> !HasRow(runs, j, c, stage)
  }

  // Tests passed at commit c: no stage is required, or as many different stages have a row there, and of every
  // stage that has one the newest says PASS or carries a waiver.
  ghost predicate Tested(runs: seq<TestRun>, waived: set<Failure>, required: nat, c: nat) {
    || required == 0
    || (&& (exists stages: set<nat> :: |stages| >= required && AllHaveRows(runs, c, stages))
        && forall stage, i :: Newest(runs, i, c, stage) ==> runs[i].results[stage] == Pass || (i, stage) in waived)
  }

  ghost predicate AllHaveRows(runs: seq<TestRun>, c: nat, stages: set<nat>) {
    forall stage :: stage in stages ==> exists i :: HasRow(runs, i, c, stage)
  }

  lemma {:induction false} LatestIsNewest(runs: seq<TestRun>, c: nat, stage: nat, k: nat)
    requires k <= |runs| && forall j :: k <= j < |runs| ==> !HasRow(runs, j, c, stage)
    ensures var i := Latest(runs, c, stage, k);
      if i >= 0 then Newest(runs, i, c, stage) else forall j :: !HasRow(runs, j, c, stage)
  {
    if k > 0 && !HasRow(runs, k - 1, c, stage) { LatestIsNewest(runs, c, stage, k - 1); }
  }

  lemma {:induction false} NewestIsLatest(runs: seq<TestRun>, i: int, c: nat, stage: nat)
    requires Newest(runs, i, c, stage)
    ensures Latest(runs, c, stage, |runs|) == i
  {
    LatestIsNewest(runs, c, stage, |runs|);
  }

  lemma {:induction false} StagesHaveRows(runs: seq<TestRun>, c: nat, k: nat, stage: nat)
    requires k <= |runs|
    ensures stage in Stages(runs, c, k) <==> exists i :: i < k && HasRow(runs, i, c, stage)
  {
    if k > 0 {
      StagesHaveRows(runs, c, k - 1, stage);
      if stage in Stages(runs, c, k) && stage !in Stages(runs, c, k - 1) { assert HasRow(runs, k - 1, c, stage); }
      if i :| i < k && HasRow(runs, i, c, stage) { assert i < k - 1 || i == k - 1; }
    }
  }

  lemma {:induction false} FewerStages(a: set<nat>, b: set<nat>)
    requires a <= b
    ensures |a| <= |b|
  {
    assert b == a + (b - a);
  }

  // MAIN: what the test gate means.
  lemma {:induction false} GateExactly(runs: seq<TestRun>, waived: set<Failure>, required: nat, c: nat)
    ensures GatePasses(runs, waived, required, c) <==> Tested(runs, waived, required, c)
  {
    var all := Stages(runs, c, |runs|);
    forall stage ensures stage in all <==> exists i :: HasRow(runs, i, c, stage) {
      StagesHaveRows(runs, c, |runs|, stage);
    }
    if GatePasses(runs, waived, required, c) && required > 0 {
      assert AllHaveRows(runs, c, all);
      forall stage, i | Newest(runs, i, c, stage) ensures runs[i].results[stage] == Pass || (i, stage) in waived {
        NewestIsLatest(runs, i, c, stage);
        assert StagePasses(runs, waived, c, stage);
      }
    }
    if Tested(runs, waived, required, c) && required > 0 {
      var stages: set<nat> :| |stages| >= required && AllHaveRows(runs, c, stages);
      FewerStages(stages, all);
      forall stage | stage in all ensures StagePasses(runs, waived, c, stage) {
        LatestIsNewest(runs, c, stage, |runs|);
      }
    }
  }

  // Only rows with a result can carry a waiver.
  ghost predicate Settled(runs: seq<TestRun>, waived: set<Failure>) {
    forall f :: f in waived ==> f.0 < |runs| && f.1 in runs[f.0].results && !Active(runs[f.0].results[f.1])
  }

  lemma {:induction false} LatestSame(a: seq<TestRun>, b: seq<TestRun>, c: nat, stage: nat, k: nat)
    requires k <= |a| && k <= |b|
    requires forall i :: 0 <= i < k ==>
      a[i].commit == b[i].commit && (a[i].commit == c ==> a[i].results.Keys == b[i].results.Keys)
    ensures Latest(a, c, stage, k) == Latest(b, c, stage, k) && Stages(a, c, k) == Stages(b, c, k)
  {
    if k > 0 { LatestSame(a, b, c, stage, k - 1); }
  }

  // The newest run changed some of its unfinished rows.
  ghost predicate Progressed(a: seq<TestRun>, b: seq<TestRun>) {
    && |a| == |b| > 0
    && (forall i :: 0 <= i < |a| - 1 ==> a[i] == b[i])
    && var last := |a| - 1;
      && a[last].commit == b[last].commit && a[last].results.Keys == b[last].results.Keys
      && forall stage :: stage in a[last].results && !Active(a[last].results[stage]) ==>
        b[last].results[stage] == a[last].results[stage]
  }

  lemma {:induction false} ProgressKeepsStage(
    a: seq<TestRun>, b: seq<TestRun>, waived: set<Failure>, c: nat, stage: nat)
    requires Progressed(a, b) && Settled(a, waived) && StagePasses(a, waived, c, stage)
    ensures StagePasses(b, waived, c, stage)
  {
    LatestSame(a, b, c, stage, |a|);
    var i := Latest(a, c, stage, |a|);
    assert !Active(a[i].results[stage]);
    assert b[i].results[stage] == a[i].results[stage];
  }

  // A gate that passes at c does not change when the newest run progresses: had it an unfinished
  // row at c, the gate would not pass.
  lemma {:induction false} ProgressKeepsGate(
    a: seq<TestRun>, b: seq<TestRun>, waived: set<Failure>, required: nat, c: nat)
    requires Progressed(a, b) && Settled(a, waived) && GatePasses(a, waived, required, c)
    ensures GatePasses(b, waived, required, c)
  {
    LatestSame(a, b, c, 0, |a|);
    if required > 0 {
      forall stage | stage in Stages(b, c, |b|) ensures StagePasses(b, waived, c, stage) {
        ProgressKeepsStage(a, b, waived, c, stage);
      }
    }
  }

  // ---------------------------------------------------------------- git merge

  // What git merge does: nothing, a refusal with an exit status, or an exception before any effect.
  datatype MergeOutcome = Clean | Refused | Raises

  function MergedDag(dag: Dag, head: nat, tip: nat): Dag {
    if Ancestor(dag, tip, head) then dag else dag + [[head, tip]]
  }

  function MergedHead(dag: Dag, head: nat, tip: nat): nat {
    if Ancestor(dag, tip, head) then head else |dag|
  }

  // A clean merge keeps everything that was merged before and adds the tip.
  lemma {:induction false} MergeAdds(dag: Dag, head: nat, tip: nat, a: nat)
    requires WellFormed(dag) && head < |dag| && tip < |dag|
    ensures var dag', head' := MergedDag(dag, head, tip), MergedHead(dag, head, tip);
      && WellFormed(dag') && Extends(dag', dag) && head' < |dag'|
      && Ancestor(dag', tip, head')
      && (Ancestor(dag, a, head) ==> Ancestor(dag', a, head'))
  {
    if !Ancestor(dag, tip, head) {
      var dag' := dag + [[head, tip]];
      assert Extends(dag', dag);
      ParentIsAncestor(dag', tip, |dag|, 1);
      if Ancestor(dag, a, head) {
        AncestorGrows(dag, dag', a, head);
        ParentIsAncestor(dag', a, |dag|, 0);
      }
    }
  }

  // The ancestors of a merge are exactly those of the head and those of the tip.
  lemma {:induction false} MergeAncestors(dag: Dag, head: nat, tip: nat, a: nat)
    requires WellFormed(dag) && head < |dag| && tip < |dag| && a < |dag|
    ensures Ancestor(MergedDag(dag, head, tip), a, MergedHead(dag, head, tip)) <==>
      Ancestor(dag, a, head) || Ancestor(dag, a, tip)
  {
    MergeAdds(dag, head, tip, a);
    if Ancestor(dag, tip, head) {
      if Ancestor(dag, a, tip) { AncestorOfAncestor(dag, a, tip, head); }
    } else {
      var dag' := dag + [[head, tip]];
      assert Extends(dag', dag);
      if Ancestor(dag, a, tip) {
        AncestorGrows(dag, dag', a, tip);
        ParentIsAncestor(dag', a, |dag|, 1);
      }
      if Ancestor(dag', a, |dag|) {
        var i :| 0 <= i < |dag'[|dag|]| && dag'[|dag|][i] < |dag| && Ancestor(dag', a, dag'[|dag|][i]);
        AncestorShrinks(dag, dag', a, dag'[|dag|][i]);
      }
    }
  }

  // ---------------------------------------------------------------- creation

  predicate Recorded(sources: seq<Source>, w: nat) { exists i :: 0 <= i < |sources| && sources[i].workspace == w }

  function MergeInto(s: State, tip: nat): State {
    s.(dag := MergedDag(s.dag, s.head, tip), head := MergedHead(s.dag, s.head, tip))
  }

  function Record(s: State, w: nat, tip: nat): State { s.(sources := s.sources + [Source(w, tip)]) }

  // The source loop of create_integration from position k on. The row is written even when the
  // merge was refused, and the loop stops there; a workspace named twice violates the primary key.
  function CreateFrom(s: State, selected: seq<nat>, outcome: nat -> MergeOutcome, k: nat): State
    requires k <= |selected| && forall w :: w in selected ==> w in s.tips
    decreases |selected| - k
  {
    if k == |selected| then s.(row := Row(false, None, Testing))
    else
      var w, tip := selected[k], s.tips[selected[k]];
      match outcome(k)
      case Raises => s
      case Refused => if Recorded(s.sources, w) then s else Record(s, w, tip).(row := Row(false, None, InConflict))
      case Clean =>
        if Recorded(s.sources, w) then MergeInto(s, tip)
        else CreateFrom(Record(MergeInto(s, tip), w, tip), selected, outcome, k + 1)
  }

  function NewIntegration(dag: Dag, tips: map<nat, nat>, base: nat): State {
    State(dag, base, tips, Row(false, None, Merging), [], [], {}, 0, {})
  }

  ghost predicate Valid(s: State) {
    && WellFormed(s.dag) && s.head < |s.dag|
    && (forall w :: w in s.tips ==> s.tips[w] < |s.dag|)
    && (forall i :: 0 <= i < |s.sources| ==> s.sources[i].workspace in s.tips && s.sources[i].merged < |s.dag|)
  }

  // The first k recorded sources are merged into the worktree.
  ghost predicate MergedUpTo(s: State, k: int) {
    forall i :: 0 <= i < k && i < |s.sources| ==> Ancestor(s.dag, s.sources[i].merged, s.head)
  }

  // Merging one more tip keeps what was merged.
  lemma {:induction false} MergeIntoKeeps(s: State, tip: nat, k: int)
    requires Valid(s) && MergedUpTo(s, k) && tip < |s.dag|
    ensures Valid(MergeInto(s, tip)) && MergedUpTo(MergeInto(s, tip), k) && Extends(MergeInto(s, tip).dag, s.dag)
    ensures Ancestor(MergeInto(s, tip).dag, tip, MergeInto(s, tip).head)
  {
    MergeAdds(s.dag, s.head, tip, tip);
    forall i | 0 <= i < k && i < |s.sources|
      ensures Ancestor(MergeInto(s, tip).dag, s.sources[i].merged, MergeInto(s, tip).head)
    {
      MergeAdds(s.dag, s.head, tip, s.sources[i].merged);
    }
  }

  // Sources are recorded in the order selected, each at its tip, and nothing else has happened yet.
  ghost predicate Recording(s: State, selected: seq<nat>) {
    && Valid(s) && !s.row.ready && s.row.verified.None? && !s.row.status.ReadyForMain?
    && s.runs == [] && s.waived == {} && s.atMark == {} && s.threads == 0
    && |s.sources| <= |selected|
    && forall i :: 0 <= i < |s.sources| ==>
      selected[i] in s.tips && s.sources[i] == Source(selected[i], s.tips[selected[i]])
  }

  // What creation leaves: every recorded source is merged except possibly the last, whose merge was
  // refused; with status TESTING all selected sources are recorded and merged.
  ghost predicate Created(s: State, selected: seq<nat>) {
    && Recording(s, selected)
    && MergedUpTo(s, |s.sources| - 1)
    && (!s.row.status.InConflict? ==> MergedUpTo(s, |s.sources|))
    && (s.row.status.Testing? ==> |s.sources| == |selected|)
  }

  lemma {:induction false} RecordKeeps(s: State, selected: seq<nat>)
    requires Recording(s, selected) && MergedUpTo(s, |s.sources|)
    requires |s.sources| < |selected| && selected[|s.sources|] in s.tips
    ensures var w := selected[|s.sources|];
      && Recording(Record(s, w, s.tips[w]), selected) && MergedUpTo(Record(s, w, s.tips[w]), |s.sources|)
      && (Ancestor(s.dag, s.tips[w], s.head) ==> MergedUpTo(Record(s, w, s.tips[w]), |s.sources| + 1))
  {
  }

  lemma {:induction false} CleanMergeKeeps(s: State, selected: seq<nat>)
    requires Recording(s, selected) && MergedUpTo(s, |s.sources|)
    requires |s.sources| < |selected| && selected[|s.sources|] in s.tips
    ensures var w := selected[|s.sources|];
      var merged := MergeInto(s, s.tips[w]);
      && Recording(merged, selected) && MergedUpTo(merged, |s.sources|)
      && Recording(Record(merged, w, s.tips[w]), selected) && MergedUpTo(Record(merged, w, s.tips[w]), |s.sources| + 1)
  {
    var tip := s.tips[selected[|s.sources|]];
    MergeIntoKeeps(s, tip, |s.sources|);
    RecordKeeps(MergeInto(s, tip), selected);
  }

  lemma {:induction false} RefusedMergeKeeps(s: State, selected: seq<nat>)
    requires Recording(s, selected) && MergedUpTo(s, |s.sources|)
    requires |s.sources| < |selected| && selected[|s.sources|] in s.tips
    ensures var w := selected[|s.sources|];
      Created(Record(s, w, s.tips[w]).(row := Row(false, None, InConflict)), selected)
  {
    RecordKeeps(s, selected);
  }

  // Stopping between two merges, or after the last.
  lemma {:induction false} StopKeeps(s: State, selected: seq<nat>)
    requires Recording(s, selected) && MergedUpTo(s, |s.sources|) && s.row.status.Merging?
    ensures Created(s, selected)
    ensures |s.sources| == |selected| ==> Created(s.(row := Row(false, None, Testing)), selected)
  {
  }

  lemma {:induction false} CreateRecords(s: State, selected: seq<nat>, outcome: nat -> MergeOutcome)
    requires forall w :: w in selected ==> w in s.tips
    requires Recording(s, selected) && MergedUpTo(s, |s.sources|) && s.row.status.Merging?
    ensures Created(CreateFrom(s, selected, outcome, |s.sources|), selected)
    decreases |selected| - |s.sources|
  {
    var k := |s.sources|;
    StopKeeps(s, selected);
    if k < |selected| {
      var w, tip := selected[k], s.tips[selected[k]];
      match outcome(k)
      case Raises =>
      case Refused => RefusedMergeKeeps(s, selected);
      case Clean =>
        CleanMergeKeeps(s, selected);
        if Recorded(s.sources, w) {
          StopKeeps(MergeInto(s, tip), selected);
        } else {
          CreateRecords(Record(MergeInto(s, tip), w, tip), selected, outcome);
        }
    }
  }

  // git refuses no tip that the worktree already holds.
  ghost predicate HonestRefusals(s: State, selected: seq<nat>, outcome: nat -> MergeOutcome, k: nat)
    requires k <= |selected| && forall w :: w in selected ==> w in s.tips
    decreases |selected| - k
  {
    k < |selected| ==>
      var w, tip := selected[k], s.tips[selected[k]];
      && (outcome(k).Refused? ==> !Ancestor(s.dag, tip, s.head))
      && (outcome(k).Clean? && !Recorded(s.sources, w) ==>
           HonestRefusals(Record(MergeInto(s, tip), w, tip), selected, outcome, k + 1))
  }

  // The last recorded source is not merged.
  ghost predicate LastUnmerged(s: State) {
    s.sources != [] && !Ancestor(s.dag, s.sources[|s.sources| - 1].merged, s.head)
  }

  lemma {:induction false} ConflictIsUnmerged(s: State, selected: seq<nat>, outcome: nat -> MergeOutcome, k: nat)
    requires k <= |selected| && forall w :: w in selected ==> w in s.tips
    requires HonestRefusals(s, selected, outcome, k) && !s.row.status.InConflict?
    ensures var r := CreateFrom(s, selected, outcome, k);
      r.row.status.InConflict? ==> LastUnmerged(r)
    decreases |selected| - k
  {
    if k < |selected| {
      var w, tip := selected[k], s.tips[selected[k]];
      if outcome(k).Clean? && !Recorded(s.sources, w) {
        ConflictIsUnmerged(Record(MergeInto(s, tip), w, tip), selected, outcome, k + 1);
      }
    }
  }

  // MAIN: whatever the merges do, creation records a prefix of the selected sources at their tips; and
  // all recorded sources are merged if and only if no recorded merge was refused.
  lemma {:induction false} CreationResult(
    dag: Dag, tips: map<nat, nat>, base: nat, selected: seq<nat>, outcome: nat -> MergeOutcome)
    requires WellFormed(dag) && base < |dag| && forall w :: w in tips ==> tips[w] < |dag|
    requires forall w :: w in selected ==> w in tips
    ensures var s := NewIntegration(dag, tips, base);
      var r := CreateFrom(s, selected, outcome, 0);
      && Created(r, selected)
      && (HonestRefusals(s, selected, outcome, 0) ==>
           (MergedUpTo(r, |r.sources|) <==> !r.row.status.InConflict?))
  {
    var s := NewIntegration(dag, tips, base);
    CreateRecords(s, selected, outcome);
    if HonestRefusals(s, selected, outcome, 0) { ConflictIsUnmerged(s, selected, outcome, 0); }
  }

  // The workspace at this place was selected before.
  ghost predicate Repeated(selected: seq<nat>, k: nat)
    requires k < |selected|
  {
    exists j :: 0 <= j < k && selected[j] == selected[k]
  }

  // Creation gets to the source at place n: all before are different and merge cleanly, and the one at n, if n
  // is not the end, does not or was selected before.
  ghost predicate CreationStopsAt(selected: seq<nat>, outcome: nat -> MergeOutcome, n: nat) {
    && n <= |selected|
    && (forall i :: 0 <= i < n ==> outcome(i) == Clean && !Repeated(selected, i))
    && (n < |selected| ==> outcome(n) != Clean || Repeated(selected, n))
  }

  // Of a refused merge the source is recorded all the same, unless it was before.
  ghost predicate RefusedAt(selected: seq<nat>, outcome: nat -> MergeOutcome, n: nat) {
    n < |selected| && outcome(n) == Refused && !Repeated(selected, n)
  }

  // What creation leaves when it stops at place n, in the words of the request.
  ghost predicate CreatedUpTo(
    r: State, tips: map<nat, nat>, selected: seq<nat>, outcome: nat -> MergeOutcome, n: nat)
    requires n <= |selected|
  {
    && |r.sources| == n + (if RefusedAt(selected, outcome, n) then 1 else 0)
    && (forall i :: 0 <= i < |r.sources| ==>
         selected[i] in tips && r.sources[i] == Source(selected[i], tips[selected[i]]))
    && r.row == Row(false, None,
         if n == |selected| then Testing else if RefusedAt(selected, outcome, n) then InConflict else Merging)
  }

  // The commits of the base, and of the tips from place k up to n.
  ghost predicate Brings(s: State, selected: seq<nat>, k: nat, n: nat, a: nat)
    requires n <= |selected|
  {
    || Ancestor(s.dag, a, s.head)
    || exists i :: k <= i < n && selected[i] in s.tips && Ancestor(s.dag, a, s.tips[selected[i]])
  }

  lemma {:induction false} MergedBrings(s: State, selected: seq<nat>, k: nat, n: nat, a: nat)
    requires Valid(s) && k < n <= |selected| && selected[k] in s.tips && a < |s.dag|
    ensures var w := selected[k];
      var s' := Record(MergeInto(s, s.tips[w]), w, s.tips[w]);
      Valid(s') && a < |s'.dag| && (Brings(s', selected, k + 1, n, a) <==> Brings(s, selected, k, n, a))
  {
    var w, tip := selected[k], s.tips[selected[k]];
    var s' := Record(MergeInto(s, tip), w, tip);
    MergeIntoKeeps(s, tip, 0);
    MergeAncestors(s.dag, s.head, tip, a);
    forall i | k < i < n && selected[i] in s.tips
      ensures Ancestor(s'.dag, a, s.tips[selected[i]]) <==> Ancestor(s.dag, a, s.tips[selected[i]])
    {
      var other := s.tips[selected[i]];
      if Ancestor(s.dag, a, other) { AncestorGrows(s.dag, s'.dag, a, other); }
      if Ancestor(s'.dag, a, other) { AncestorShrinks(s.dag, s'.dag, a, other); }
    }
  }

  lemma {:induction false} RecordedIsRepeated(s: State, selected: seq<nat>)
    requires Recording(s, selected) && |s.sources| < |selected|
    ensures Recorded(s.sources, selected[|s.sources|]) <==> Repeated(selected, |s.sources|)
  {
    var k := |s.sources|;
    if Repeated(selected, k) {
      var j :| 0 <= j < k && selected[j] == selected[k];
      assert s.sources[j].workspace == selected[j];
    }
  }

  // The tip of a source that was merged before brings nothing new.
  lemma {:induction false} RepeatedBrings(s: State, selected: seq<nat>, a: nat)
    requires Recording(s, selected) && MergedUpTo(s, |s.sources|) && |s.sources| < |selected| && a < |s.dag|
    requires Repeated(selected, |s.sources|)
    ensures var tip := s.tips[selected[|s.sources|]];
      Ancestor(MergeInto(s, tip).dag, a, MergeInto(s, tip).head) <==> Ancestor(s.dag, a, s.head)
  {
    var j :| 0 <= j < |s.sources| && selected[j] == selected[|s.sources|];
    assert Ancestor(s.dag, s.sources[j].merged, s.head);
  }

  lemma {:induction false} CreationExactlyFrom(
    s: State, selected: seq<nat>, outcome: nat -> MergeOutcome, n: nat, a: nat)
    requires forall w :: w in selected ==> w in s.tips
    requires Recording(s, selected) && MergedUpTo(s, |s.sources|) && s.row == Row(false, None, Merging)
    requires CreationStopsAt(selected, outcome, n) && |s.sources| <= n && a < |s.dag|
    ensures var r := CreateFrom(s, selected, outcome, |s.sources|);
      && CreatedUpTo(r, s.tips, selected, outcome, n)
      && (Ancestor(r.dag, a, r.head) <==> Brings(s, selected, |s.sources|, n, a))
    decreases |selected| - |s.sources|
  {
    var k := |s.sources|;
    if k < |selected| {
      var w, tip := selected[k], s.tips[selected[k]];
      RecordedIsRepeated(s, selected);
      if k < n {
        CleanMergeKeeps(s, selected);
        MergedBrings(s, selected, k, n, a);
        CreationExactlyFrom(Record(MergeInto(s, tip), w, tip), selected, outcome, n, a);
      } else if Repeated(selected, k) {
        RepeatedBrings(s, selected, a);
      }
    }
  }

  // MAIN: creation stops at the first source that does not merge cleanly or is selected twice; the sources
  // before it are recorded at their tips and merged into the base, and nothing else is; a refused one is
  // recorded too, and the status tells which it was.
  lemma {:induction false} CreationExactly(
    dag: Dag, tips: map<nat, nat>, base: nat, selected: seq<nat>, outcome: nat -> MergeOutcome, n: nat, a: nat)
    requires WellFormed(dag) && base < |dag| && forall w :: w in tips ==> tips[w] < |dag|
    requires (forall w :: w in selected ==> w in tips) && CreationStopsAt(selected, outcome, n) && a < |dag|
    ensures var r := CreateFrom(NewIntegration(dag, tips, base), selected, outcome, 0);
      && CreatedUpTo(r, tips, selected, outcome, n)
      && (Ancestor(r.dag, a, r.head) <==>
           Ancestor(dag, a, base) || exists i :: 0 <= i < n && Ancestor(dag, a, tips[selected[i]]))
  {
    CreationExactlyFrom(NewIntegration(dag, tips, base), selected, outcome, n, a);
  }

  // The creation of an integration from one source that git refuses to merge.
  function RefusedCreation(): State {
    CreateFrom(NewIntegration([[], []], map[7 := 1], 0), [7], (k: nat) => Refused, 0)
  }

  // A refused merge is recorded all the same, so a recorded source need not be merged.
  lemma {:induction false} RefusedSourceIsRecorded()
    ensures var s := RefusedCreation();
      s.sources == [Source(7, 1)] && s.row.status.InConflict? && !Ancestor(s.dag, 1, s.head)
  {
  }

  // ---------------------------------------------------------------- the other handlers

  // merge_latest: the source loop from position k on, after the row was invalidated.
  function MergeLatestFrom(s: State, outcome: nat -> MergeOutcome, k: nat): State
    requires k <= |s.sources| && forall x :: x in s.sources ==> x.workspace in s.tips
    decreases |s.sources| - k
  {
    if k == |s.sources| then s
    else
      var w := s.sources[k].workspace;
      if s.tips[w] == s.sources[k].merged then MergeLatestFrom(s, outcome, k + 1)
      else match outcome(k)
        case Raises => s
        case Refused => s.(row := s.row.(status := InConflict))
        case Clean => MergeLatestFrom(Remerged(s, k), outcome, k + 1)
  }

  function Remerged(s: State, k: nat): (r: State)
    requires k < |s.sources| && s.sources[k].workspace in s.tips
    ensures |r.sources| == |s.sources| && r.tips == s.tips && forall i :: 0 <= i < |s.sources| ==>
      r.sources[i].workspace == s.sources[i].workspace
  {
    var w := s.sources[k].workspace;
    MergeInto(s, s.tips[w]).(sources := s.sources[k := Source(w, s.tips[w])])
  }

  // Every source branch is still at the commit recorded for it.
  predicate TipsRecorded(s: State) {
    forall i :: 0 <= i < |s.sources| ==>
      s.sources[i].workspace in s.tips && s.tips[s.sources[i].workspace] == s.sources[i].merged
  }

  // sources_current of integration_readiness.
  predicate SourcesCurrent(s: State) {
    TipsRecorded(s) && forall i :: 0 <= i < |s.sources| ==> Ancestor(s.dag, s.sources[i].merged, s.head)
  }

  // integration_detail
  function Viewed(s: State): State {
    if s.row.ready && ((s.row.verified.Some? && s.row.verified.value != s.head) || !TipsRecorded(s)) then Invalidated(s)
    else s
  }

  predicate AnyActive(runs: seq<TestRun>) { exists i :: 0 <= i < |runs| && RunActive(runs[i]) }

  // test_integration; None when the contract cannot be loaded.
  function TestsStarted(s: State, stages: Option<set<nat>>): State {
    if AnyActive(s.runs) then s
    else if stages.None? then Invalidated(s)
    else Invalidated(s).(runs := s.runs + [TestRun(s.head, map stage | stage in stages.value :: Queued)],
      threads := s.threads + 1)
  }

  // ready_main: required(c) is the number of stages the contract at commit c requires.
  function Marked(s: State, required: nat -> nat, clean: bool, conflicts: bool): State {
    if clean && !conflicts && SourcesCurrent(s) && GatePasses(s.runs, s.waived, required(s.head), s.head)
    then s.(row := Row(true, Some(s.head), ReadyForMain), atMark := s.waived)
    else s
  }

  function LastRow(s: State, stage: nat, status: TestStatus): State
    requires |s.runs| > 0
  {
    var last := |s.runs| - 1;
    s.(runs := s.runs[last := TestRun(s.runs[last].commit, s.runs[last].results[stage := status])])
  }

  // A restart: the threads are gone, and unfinished rows are marked FAIL.
  function Restarted(s: State): State {
    if s.runs == [] then s.(threads := 0)
    else
      var last := |s.runs| - 1;
      var rows := s.runs[last].results;
      s.(threads := 0, runs := s.runs[last := TestRun(s.runs[last].commit, map stage | stage in rows ::
        if Active(rows[stage]) then Fail else rows[stage])])
  }

  // ---------------------------------------------------------------- runs

  datatype Step =
    | NewCommit(parents: seq<nat>)
    | MoveTip(workspace: nat, commit: nat)
    | MoveHead(commit: nat)
    | MergeLatest(conflicts: bool, outcome: nat -> MergeOutcome)
    | StartTests(conflicts: bool, stages: Option<set<nat>>)
    | StageResult(stage: nat, status: TestStatus)
    | RunClosed(passed: bool)
    | Restart
    | Waive(failure: Failure)
    | Revoke(failure: Failure)
    | View
    | MarkReady(clean: bool, conflicts: bool)

  predicate Enabled(s: State, step: Step) {
    match step
    case NewCommit(parents) => forall i :: 0 <= i < |parents| ==> parents[i] < |s.dag|
    case MoveTip(_, c) => c < |s.dag|
    case MoveHead(c) => c < |s.dag|
    case StageResult(stage, _) =>
      |s.runs| > 0 && stage in s.runs[|s.runs| - 1].results && Active(s.runs[|s.runs| - 1].results[stage])
    case RunClosed(_) => s.threads > 0
    case Waive(f) => f.0 < |s.runs| && f.1 in s.runs[f.0].results && !Active(s.runs[f.0].results[f.1])
    case _ => true
  }

  function Apply(s: State, step: Step, required: nat -> nat): State
    requires Enabled(s, step) && forall x :: x in s.sources ==> x.workspace in s.tips
  {
    match step
    case NewCommit(parents) => s.(dag := s.dag + [parents])
    case MoveTip(w, c) => s.(tips := s.tips[w := c])
    case MoveHead(c) => s.(head := c)
    case MergeLatest(conflicts, outcome) => if conflicts then s else MergeLatestFrom(Invalidated(s), outcome, 0)
    case StartTests(conflicts, stages) => if conflicts then s else TestsStarted(s, stages)
    case StageResult(stage, status) => LastRow(s, stage, status)
    case RunClosed(passed) =>
      s.(row := Row(false, None, if passed then Testing else TestsFailed), threads := s.threads - 1)
    case Restart => Restarted(s)
    case Waive(f) => s.(waived := s.waived + {f})
    case Revoke(f) => s.(waived := s.waived - {f})
    case View => Viewed(s)
    case MarkReady(clean, conflicts) => Marked(s, required, clean, conflicts)
  }

  // ---------------------------------------------------------------- what ready means

  // Ready is a claim about one exact commit: it holds every recorded source, and the tests required
  // there passed, or failed under a waiver in force when it was marked.
  ghost predicate Sound(s: State, required: nat -> nat) {
    && s.row.ready == s.row.verified.Some?
    && (s.row.ready ==>
         var v := s.row.verified.value;
         && v < |s.dag|
         && (forall i :: 0 <= i < |s.sources| ==> Ancestor(s.dag, s.sources[i].merged, v))
         && GatePasses(s.runs, s.atMark, required(v), v))
  }

  // Only the newest run can have unfinished rows, and waivers are for finished ones.
  ghost predicate Orderly(s: State) {
    && (forall i :: 0 <= i < |s.runs| - 1 ==> !RunActive(s.runs[i]))
    && Settled(s.runs, s.waived) && Settled(s.runs, s.atMark)
  }

  ghost predicate Inv(s: State, required: nat -> nat) { Valid(s) && Orderly(s) && Sound(s, required) }

  lemma {:induction false} NewCommitKeeps(s: State, parents: seq<nat>, required: nat -> nat)
    requires Inv(s, required) && forall i :: 0 <= i < |parents| ==> parents[i] < |s.dag|
    ensures Inv(s.(dag := s.dag + [parents]), required)
  {
    var dag' := s.dag + [parents];
    assert WellFormed(dag') && Extends(dag', s.dag);
    if s.row.ready {
      forall i | 0 <= i < |s.sources| ensures Ancestor(dag', s.sources[i].merged, s.row.verified.value) {
        AncestorGrows(s.dag, dag', s.sources[i].merged, s.row.verified.value);
      }
    }
  }

  lemma {:induction false} RemergedKeeps(s: State, k: nat)
    requires Valid(s) && k < |s.sources|
    ensures Valid(Remerged(s, k))
  {
    MergeIntoKeeps(s, s.tips[s.sources[k].workspace], 0);
  }

  // merge_latest never leaves the row ready, whichever merge stops it.
  lemma {:induction false} MergeLatestKeeps(s: State, outcome: nat -> MergeOutcome, k: nat, required: nat -> nat)
    requires Valid(s) && Orderly(s) && !s.row.ready && s.row.verified.None? && k <= |s.sources|
    ensures var r := MergeLatestFrom(s, outcome, k);
      Inv(r, required) && !r.row.ready && r.tips == s.tips && r.runs == s.runs
    decreases |s.sources| - k
  {
    if k < |s.sources| {
      if s.tips[s.sources[k].workspace] == s.sources[k].merged {
        MergeLatestKeeps(s, outcome, k + 1, required);
      } else if outcome(k).Clean? {
        RemergedKeeps(s, k);
        MergeLatestKeeps(Remerged(s, k), outcome, k + 1, required);
      }
    }
  }

  lemma {:induction false} StartTestsKeeps(s: State, stages: Option<set<nat>>, required: nat -> nat)
    requires Inv(s, required)
    ensures Inv(TestsStarted(s, stages), required)
  {
    var s' := TestsStarted(s, stages);
    if !AnyActive(s.runs) && stages.Some? {
      forall i | 0 <= i < |s'.runs| - 1 ensures !RunActive(s'.runs[i]) {
        assert s'.runs[i] == s.runs[i];
      }
    }
  }

  lemma {:induction false} ProgressKeeps(s: State, runs: seq<TestRun>, required: nat -> nat)
    requires Inv(s, required) && Progressed(s.runs, runs)
    ensures Inv(s.(runs := runs), required)
  {
    if s.row.ready { ProgressKeepsGate(s.runs, runs, s.atMark, required(s.row.verified.value), s.row.verified.value); }
  }

  // A restart fails every unfinished row, whichever run it is of, and leaves everything else as it is.
  lemma {:induction false} RestartKeeps(s: State, required: nat -> nat)
    requires Inv(s, required)
    ensures Inv(Restarted(s), required) && !AnyActive(Restarted(s).runs)
    ensures var s' := Restarted(s);
      && s' == s.(runs := s'.runs, threads := 0) && |s'.runs| == |s.runs|
      && forall i :: 0 <= i < |s.runs| ==>
           && s'.runs[i].commit == s.runs[i].commit && s'.runs[i].results.Keys == s.runs[i].results.Keys
           && forall stage :: stage in s.runs[i].results ==>
                var was := s.runs[i].results[stage];
                s'.runs[i].results[stage] == if was in {Queued, Running} then Fail else was
  {
    var s' := Restarted(s);
    if s.runs != [] {
      ProgressKeeps(s, s'.runs, required);
      forall i | 0 <= i < |s'.runs| ensures !RunActive(s'.runs[i]) {
        assert i < |s.runs| - 1 ==> s'.runs[i] == s.runs[i];
      }
    }
  }

  lemma {:induction false} MarkKeeps(s: State, required: nat -> nat, clean: bool, conflicts: bool)
    requires Inv(s, required)
    ensures Inv(Marked(s, required, clean, conflicts), required)
  {
  }

  lemma {:induction false} StepKeepsInv(s: State, step: Step, required: nat -> nat)
    requires Inv(s, required) && Enabled(s, step)
    ensures forall x :: x in s.sources ==> x.workspace in s.tips
    ensures Inv(Apply(s, step, required), required)
  {
    match step
    case NewCommit(parents) => NewCommitKeeps(s, parents, required);
    case MergeLatest(_, outcome) => MergeLatestKeeps(Invalidated(s), outcome, 0, required);
    case StartTests(_, stages) => StartTestsKeeps(s, stages, required);
    case StageResult(stage, status) => ProgressKeeps(s, LastRow(s, stage, status).runs, required);
    case Restart => RestartKeeps(s, required);
    case MarkReady(clean, conflicts) => MarkKeeps(s, required, clean, conflicts);
    case _ =>
  }

  ghost predicate Leads(s: State, step: Step, s': State, required: nat -> nat) {
    Enabled(s, step) && (forall x :: x in s.sources ==> x.workspace in s.tips) && s' == Apply(s, step, required)
  }

  // A run starts with a creation, whatever was selected and however its merges went.
  ghost predicate IsRun(states: seq<State>, steps: seq<Step>, required: nat -> nat) {
    && |states| == |steps| + 1
    && (exists selected :: Created(states[0], selected))
    && forall i :: 0 <= i < |steps| ==> Leads(states[i], steps[i], states[i + 1], required)
  }

  lemma {:induction false} StepOf(states: seq<State>, steps: seq<Step>, required: nat -> nat, i: nat)
    requires IsRun(states, steps, required) && i < |steps|
    ensures Leads(states[i], steps[i], states[i + 1], required)
  {
  }

  lemma {:induction false} RunKeepsInv(states: seq<State>, steps: seq<Step>, required: nat -> nat, k: nat)
    requires IsRun(states, steps, required) && k <= |steps|
    ensures Inv(states[k], required)
  {
    if k > 0 {
      RunKeepsInv(states, steps, required, k - 1);
      StepOf(states, steps, required, k - 1);
      StepKeepsInv(states[k - 1], steps[k - 1], required);
    }
  }

  // Every recorded source is merged into commit c.
  ghost predicate HoldsSources(s: State, c: nat) {
    forall i :: 0 <= i < |s.sources| ==> Ancestor(s.dag, s.sources[i].merged, c)
  }

  // MAIN: in every state of every run, ready is a claim about one exact commit, into which every recorded
  // source is merged and at which the tests passed, under the waivers in force when it was marked.
  lemma {:induction false} RunIsSound(states: seq<State>, steps: seq<Step>, required: nat -> nat, k: nat)
    requires IsRun(states, steps, required) && k <= |steps|
    ensures var s := states[k];
      && s.row.ready == s.row.verified.Some?
      && (s.row.ready ==>
           && HoldsSources(s, s.row.verified.value)
           && Tested(s.runs, s.atMark, required(s.row.verified.value), s.row.verified.value))
  {
    RunKeepsInv(states, steps, required, k);
    if states[k].row.ready {
      var v := states[k].row.verified.value;
      GateExactly(states[k].runs, states[k].atMark, required(v), v);
    }
  }

  // Every source branch is at its recorded commit.
  ghost predicate NoneMoved(s: State) {
    forall i :: 0 <= i < |s.sources| ==>
      s.sources[i].workspace in s.tips && s.tips[s.sources[i].workspace] == s.sources[i].merged
  }

  // The row is ready for HEAD, and every source branch is at its recorded commit, which is merged.
  ghost predicate Current(s: State) { s.row.verified == Some(s.head) && NoneMoved(s) && HoldsSources(s, s.head) }

  lemma {:induction false} ViewedIsCurrent(s: State, required: nat -> nat)
    requires Inv(s, required)
    ensures Viewed(s).row.ready ==> Current(Viewed(s))
  {
  }

  // What ready_main asks for: a clean worktree without conflicts, that holds every source as its branch is
  // now, and at whose commit the tests pass.
  ghost predicate Markable(s: State, required: nat -> nat, clean: bool, conflicts: bool) {
    && clean && !conflicts && NoneMoved(s) && HoldsSources(s, s.head)
    && Tested(s.runs, s.waived, required(s.head), s.head)
  }

  lemma {:induction false} MarkedExactly(s: State, required: nat -> nat, clean: bool, conflicts: bool)
    ensures Marked(s, required, clean, conflicts) ==
      if Markable(s, required, clean, conflicts)
      then s.(row := Row(true, Some(s.head), ReadyForMain), atMark := s.waived) else s
  {
    GateExactly(s.runs, s.waived, required(s.head), s.head);
  }

  // MAIN: directly after a detail view a ready row is also current; ready_main marks a row ready exactly
  // when it may, for the commit that is HEAD, and changes nothing otherwise.
  lemma {:induction false} ReadyIsCurrentAfterView(states: seq<State>, steps: seq<Step>, required: nat -> nat, k: nat)
    requires IsRun(states, steps, required) && 0 < k <= |steps|
    ensures steps[k - 1].View? && states[k].row.ready ==> Current(states[k])
    ensures steps[k - 1].MarkReady? ==>
      if Markable(states[k - 1], required, steps[k - 1].clean, steps[k - 1].conflicts)
      then states[k].row == Row(true, Some(states[k - 1].head), ReadyForMain) && Current(states[k])
      else states[k] == states[k - 1]
  {
    var s, step := states[k - 1], steps[k - 1];
    RunKeepsInv(states, steps, required, k - 1);
    StepOf(states, steps, required, k - 1);
    match step
    case View => ViewedIsCurrent(s, required);
    case MarkReady(clean, conflicts) => MarkedExactly(s, required, clean, conflicts);
    case _ =>
  }

  // A required stage whose newest row at HEAD failed, timed out, was skipped or has not ended, and carries no
  // waiver, refuses the mark.
  lemma {:induction false} FailureRefusesMark(
    s: State, required: nat -> nat, clean: bool, conflicts: bool, stage: nat, i: nat)
    requires required(s.head) > 0 && Newest(s.runs, i, s.head, stage)
    requires s.runs[i].results[stage] in {Fail, TimedOut, Skipped, Queued, Running} && (i, stage) !in s.waived
    ensures Marked(s, required, clean, conflicts) == s
  {
    MarkedExactly(s, required, clean, conflicts);
  }

  // A step that takes readiness back: a merge of the latest changes, tests that are started or have ended, or
  // a view that finds HEAD or a source branch elsewhere.
  ghost predicate TakesBack(s: State, step: Step) {
    match step
    case MergeLatest(conflicts, _) => !conflicts
    case StartTests(conflicts, _) =>
      !conflicts && forall i, stage :: 0 <= i < |s.runs| && stage in s.runs[i].results ==>
        s.runs[i].results[stage] !in {Queued, Running}
    case RunClosed(_) => true
    case View => s.row.verified != Some(s.head) || !NoneMoved(s)
    case _ => false
  }

  lemma {:induction false} NoneActive(runs: seq<TestRun>)
    ensures !AnyActive(runs) <==>
      forall i, stage :: 0 <= i < |runs| && stage in runs[i].results ==> runs[i].results[stage] !in {Queued, Running}
  {
    if AnyActive(runs) {
      var i :| 0 <= i < |runs| && RunActive(runs[i]);
      var stage :| stage in runs[i].results && Active(runs[i].results[stage]);
    }
    if i, stage :| 0 <= i < |runs| && stage in runs[i].results && runs[i].results[stage] in {Queued, Running} {
      assert RunActive(runs[i]);
    }
  }

  // MAIN: a row that is ready stays so, for the same commit, in exactly the steps that do not take readiness
  // back; and only ready_main makes a row ready.
  lemma {:induction false} ReadyStaysExactly(states: seq<State>, steps: seq<Step>, required: nat -> nat, k: nat)
    requires IsRun(states, steps, required) && 0 < k <= |steps|
    ensures var s, step, s' := states[k - 1], steps[k - 1], states[k];
      && (s.row.ready && !step.MarkReady? ==> (s'.row.ready <==> !TakesBack(s, step)))
      && (s.row.ready && s'.row.ready && !step.MarkReady? ==> s'.row == s.row)
      && (!s.row.ready && s'.row.ready ==> step.MarkReady?)
  {
    var s, step := states[k - 1], steps[k - 1];
    RunKeepsInv(states, steps, required, k - 1);
    StepOf(states, steps, required, k - 1);
    match step
    case MergeLatest(_, outcome) => MergeLatestKeeps(Invalidated(s), outcome, 0, required);
    case StartTests(_, _) => NoneActive(s.runs);
    case _ =>
  }

  // Starting tests queues one row for each stage of the contract, at HEAD, in a new run.
  lemma {:induction false} TestsStartedExactly(s: State, stages: Option<set<nat>>)
    ensures var s' := TestsStarted(s, stages);
      if AnyActive(s.runs) then s' == s
      else if stages.None? then s' == Invalidated(s)
      else
        && s'.runs == s.runs + [s'.runs[|s.runs|]] && s'.threads == s.threads + 1
        && s'.runs[|s.runs|].commit == s.head && s'.runs[|s.runs|].results.Keys == stages.value
        && forall stage :: stage in stages.value ==> s'.runs[|s.runs|].results[stage] == Queued
  {
  }

  // What the other steps change, and nothing besides.
  lemma {:induction false} OtherStepsExactly(s: State, step: Step, required: nat -> nat)
    requires Enabled(s, step) && forall x :: x in s.sources ==> x.workspace in s.tips
    ensures var s' := Apply(s, step, required);
      match step
      case NewCommit(parents) => s' == s.(dag := s'.dag) && s'.dag == s.dag + [parents]
      case MoveTip(w, c) => s' == s.(tips := s'.tips) && s'.tips == s.tips[w := c]
      case MoveHead(c) => s' == s.(head := c)
      case StageResult(stage, status) =>
        && s' == s.(runs := s'.runs) && |s'.runs| == |s.runs|
        && (forall i :: 0 <= i < |s.runs| ==>
             s'.runs[i].commit == s.runs[i].commit && s'.runs[i].results.Keys == s.runs[i].results.Keys)
        && (forall i, st :: 0 <= i < |s.runs| && st in s.runs[i].results ==>
             s'.runs[i].results[st] == if i == |s.runs| - 1 && st == stage then status else s.runs[i].results[st])
      case RunClosed(passed) =>
        && s' == s.(row := s'.row, threads := s'.threads) && s'.threads + 1 == s.threads
        && s'.row == Row(false, None, if passed then Testing else TestsFailed)
      case Waive(f) => s' == s.(waived := s'.waived) && forall g :: g in s'.waived <==> g in s.waived || g == f
      case Revoke(f) => s' == s.(waived := s'.waived) && forall g :: g in s'.waived <==> g in s.waived && g != f
      case _ => true
  {
  }

  // An integration of one source, merged into commit 1.
  ghost function OneSource(row: Row, runs: seq<TestRun>, threads: nat): State {
    State([[], [0]], 1, map[7 := 1], row, [Source(7, 1)], runs, {}, threads, {})
  }

  const Unready := Row(false, None, Testing)

  lemma {:induction false} TestsPass(required: nat -> nat)
    ensures var s0, s1 := OneSource(Unready, [], 0), OneSource(Unready, [TestRun(1, map[0 := Queued])], 1);
      Leads(s0, StartTests(false, Some({0})), s1, required)
    ensures var s1, s2 := OneSource(Unready, [TestRun(1, map[0 := Queued])], 1),
        OneSource(Unready, [TestRun(1, map[0 := Pass])], 1);
      Leads(s1, StageResult(0, Pass), s2, required)
    ensures var s2, s3 := OneSource(Unready, [TestRun(1, map[0 := Pass])], 1),
        OneSource(Unready, [TestRun(1, map[0 := Pass])], 0);
      Leads(s2, RunClosed(true), s3, required)
  {
    var s0 := OneSource(Unready, [], 0);
    TestsStartedExactly(s0, Some({0}));
    var queued := TestsStarted(s0, Some({0})).runs[0];
    assert queued.results == map[0 := Queued];
    assert map[0 := Queued][0 := Pass] == map[0 := Pass];
  }

  lemma {:induction false} PassedIsMarked(required: nat -> nat)
    requires required(1) <= 1
    ensures var s3, s4 := OneSource(Unready, [TestRun(1, map[0 := Pass])], 0),
        OneSource(Row(true, Some(1), ReadyForMain), [TestRun(1, map[0 := Pass])], 0);
      Leads(s3, MarkReady(true, false), s4, required)
  {
    var s3 := OneSource(Unready, [TestRun(1, map[0 := Pass])], 0);
    assert HasRow(s3.runs, 0, 1, 0);
    assert AllHaveRows(s3.runs, 1, {0}) && |{0}| == 1;
    assert Tested(s3.runs, s3.waived, required(1), 1);
    MarkedExactly(s3, required, true, false);
  }

  ghost predicate ReachesReady(required: nat -> nat) {
    exists states: seq<State>, steps: seq<Step> :: IsRun(states, steps, required) && states[|steps|].row.ready
  }

  lemma {:induction false} FourSteps(
    s0: State, s1: State, s2: State, s3: State, s4: State, t1: Step, t2: Step, t3: Step, t4: Step,
    selected: seq<nat>, required: nat -> nat)
    requires Created(s0, selected) && Leads(s0, t1, s1, required) && Leads(s1, t2, s2, required)
    requires Leads(s2, t3, s3, required) && Leads(s3, t4, s4, required) && s4.row.ready
    ensures ReachesReady(required)
  {
    var states, steps := [s0, s1, s2, s3, s4], [t1, t2, t3, t4];
    assert Created(states[0], selected);
    assert IsRun(states, steps, required) && states[|steps|].row.ready;
  }

  // One source, one stage that passes: a run ends with the row ready.
  lemma {:induction false} ReadyIsReached(required: nat -> nat)
    requires required(1) <= 1
    ensures ReachesReady(required)
  {
    var queued, passed := [TestRun(1, map[0 := Queued])], [TestRun(1, map[0 := Pass])];
    var s0 := OneSource(Unready, [], 0);
    TestsPass(required);
    PassedIsMarked(required);
    assert Created(s0, [7]);
    FourSteps(s0, OneSource(Unready, queued, 1), OneSource(Unready, passed, 1), OneSource(Unready, passed, 0),
      OneSource(Row(true, Some(1), ReadyForMain), passed, 0), StartTests(false, Some({0})), StageResult(0, Pass),
      RunClosed(true), MarkReady(true, false), [7], required);
  }

  // Between views a ready row can be out of date, but it stays a sound claim about its commit.
  lemma {:induction false} ReadyCanBeOutdated(s: State, c: nat, required: nat -> nat)
    requires Inv(s, required) && s.row.ready && c < |s.dag| && c != s.row.verified.value
    ensures var s' := Apply(s, MoveHead(c), required);
      s'.row.ready && s'.row.verified != Some(s'.head) && Inv(s', required) && !Viewed(s').row.ready
  {
  }

  // ---------------------------------------------------------------- what merging the latest changes does

  // The source branch has moved since the source was recorded.
  ghost predicate Moved(s: State, i: nat)
    requires i < |s.sources| && s.sources[i].workspace in s.tips
  {
    s.tips[s.sources[i].workspace] != s.sources[i].merged
  }

  // The worktree holds commit a, or a branch that has moved, of the sources from k up to n, brings it.
  ghost predicate Gains(s: State, k: nat, n: nat, a: nat)
    requires Valid(s) && n <= |s.sources|
  {
    || Ancestor(s.dag, a, s.head)
    || exists j :: k <= j < n && Moved(s, j) && Ancestor(s.dag, a, s.tips[s.sources[j].workspace])
  }

  lemma {:induction false} RemergedGains(s: State, k: nat, n: nat, a: nat)
    requires Valid(s) && k < n <= |s.sources| && Moved(s, k) && a < |s.dag|
    ensures Valid(Remerged(s, k)) && a < |Remerged(s, k).dag|
    ensures Gains(Remerged(s, k), k + 1, n, a) <==> Gains(s, k, n, a)
  {
    var s', tip := Remerged(s, k), s.tips[s.sources[k].workspace];
    RemergedKeeps(s, k);
    MergeAdds(s.dag, s.head, tip, tip);
    MergeAncestors(s.dag, s.head, tip, a);
    forall j | k < j < |s.sources|
      ensures Moved(s', j) <==> Moved(s, j)
      ensures Ancestor(s'.dag, a, s.tips[s.sources[j].workspace]) <==>
        Ancestor(s.dag, a, s.tips[s.sources[j].workspace])
    {
      var other := s.tips[s.sources[j].workspace];
      if Ancestor(s.dag, a, other) { AncestorGrows(s.dag, s'.dag, a, other); }
      if Ancestor(s'.dag, a, other) { AncestorShrinks(s.dag, s'.dag, a, other); }
    }
  }

  lemma {:induction false} SkippedGains(s: State, k: nat, n: nat, a: nat)
    requires Valid(s) && k < n <= |s.sources| && !Moved(s, k)
    ensures Gains(s, k + 1, n, a) <==> Gains(s, k, n, a)
  {
  }

  // The loop gets from source k to source n: every moved branch before n merges cleanly, and the one at n, if
  // n is not the end, has moved and does not.
  ghost predicate StopsAt(s: State, outcome: nat -> MergeOutcome, k: nat, n: nat)
    requires Valid(s)
  {
    && k <= n <= |s.sources|
    && (forall i :: k <= i < n && Moved(s, i) ==> outcome(i) == Clean)
    && (n < |s.sources| ==> Moved(s, n) && outcome(n) != Clean)
  }

  lemma {:induction false} RemergedStops(s: State, outcome: nat -> MergeOutcome, k: nat, n: nat)
    requires Valid(s) && StopsAt(s, outcome, k, n) && k < n && Moved(s, k)
    ensures Valid(Remerged(s, k)) && StopsAt(Remerged(s, k), outcome, k + 1, n)
  {
    RemergedKeeps(s, k);
    assert forall i :: k < i < |s.sources| ==> (Moved(Remerged(s, k), i) <==> Moved(s, i));
  }

  // The worktree ends up with exactly what it held and what the moved branches before the stop bring.
  lemma {:induction false} LatestGains(s: State, outcome: nat -> MergeOutcome, k: nat, n: nat, a: nat)
    requires Valid(s) && StopsAt(s, outcome, k, n) && a < |s.dag|
    ensures var r := MergeLatestFrom(s, outcome, k);
      Ancestor(r.dag, a, r.head) <==> Gains(s, k, n, a)
    decreases n - k
  {
    if k < n {
      if Moved(s, k) {
        RemergedGains(s, k, n, a);
        RemergedStops(s, outcome, k, n);
        LatestGains(Remerged(s, k), outcome, k + 1, n, a);
      } else {
        SkippedGains(s, k, n, a);
        LatestGains(s, outcome, k + 1, n, a);
      }
    }
  }

  // The sources before the stop are recorded at their tips, the others as they were; and only a refusal
  // changes the status.
  lemma {:induction false} LatestRecords(s: State, outcome: nat -> MergeOutcome, k: nat, n: nat)
    requires Valid(s) && StopsAt(s, outcome, k, n)
    ensures var r := MergeLatestFrom(s, outcome, k);
      && r.tips == s.tips && |r.sources| == |s.sources|
      && (forall i :: 0 <= i < |s.sources| ==>
           var w := s.sources[i].workspace;
           r.sources[i] == Source(w, if k <= i < n then s.tips[w] else s.sources[i].merged))
      && r.row == if n < |s.sources| && outcome(n) == Refused then s.row.(status := InConflict) else s.row
    decreases n - k
  {
    if k < n {
      if Moved(s, k) {
        RemergedStops(s, outcome, k, n);
        LatestRecords(Remerged(s, k), outcome, k + 1, n);
      } else {
        LatestRecords(s, outcome, k + 1, n);
      }
    }
  }

  // MAIN: a merge of the latest changes in which nothing is refused leaves every source current if and
  // only if every source it skips, because its branch has not moved, was merged already or comes with a
  // branch that has moved.
  lemma {:induction false} MergeLatestMakesCurrent(s: State, outcome: nat -> MergeOutcome)
    requires Valid(s) && forall i :: outcome(i).Clean?
    ensures var r := MergeLatestFrom(s, outcome, 0);
      NoneMoved(r) && HoldsSources(r, r.head) <==>
      forall i :: 0 <= i < |s.sources| && !Moved(s, i) ==> Gains(s, 0, |s.sources|, s.sources[i].merged)
  {
    var r, n := MergeLatestFrom(s, outcome, 0), |s.sources|;
    LatestRecords(s, outcome, 0, n);
    forall i | 0 <= i < n
      ensures Ancestor(r.dag, r.sources[i].merged, r.head) <==> Moved(s, i) || Gains(s, 0, n, s.sources[i].merged)
    {
      LatestGains(s, outcome, 0, n, s.tips[s.sources[i].workspace]);
    }
  }

  // So a source whose merge was refused at creation is skipped for as long as its branch stays where it is.
  lemma {:induction false} RefusedSourceIsSkipped()
    ensures var s := Invalidated(RefusedCreation());
      Valid(s) && !HoldsSources(MergeLatestFrom(s, (k: nat) => Clean, 0), MergeLatestFrom(s, (k: nat) => Clean, 0).head)
  {
    var s := Invalidated(RefusedCreation());
    RefusedSourceIsRecorded();
    assert !Moved(s, 0) && !Gains(s, 0, 1, 1);
    LatestGains(s, (k: nat) => Clean, 0, 1, 1);
    LatestRecords(s, (k: nat) => Clean, 0, 1);
  }

  // ---------------------------------------------------------------- the handlers

  class Integration {
    var dag: Dag
    var head: nat
    var tips: map<nat, nat>
    var row: Row
    var sources: seq<Source>
    var runs: seq<TestRun>
    var waived: set<Failure>
    var threads: nat
    var atMark: set<Failure>

    function Now(): State
      reads this
    {
      State(dag, head, tips, row, sources, runs, waived, threads, atMark)
    }

    constructor (graph: Dag, branches: map<nat, nat>, base: nat)
      ensures Now() == NewIntegration(graph, branches, base)
    {
      dag, head, tips, row := graph, base, branches, Row(false, None, Merging);
      sources, runs, waived, threads, atMark := [], [], {}, 0, {};
    }

    // create_integration, on its new workspace.
    method CreateIntegration(selected: seq<nat>, outcome: nat -> MergeOutcome)
      requires forall w :: w in selected ==> w in tips
      modifies this
      ensures Now() == CreateFrom(old(Now()), selected, outcome, 0)
    {
      ghost var start := Now();
      var k := 0;
      while k < |selected|
        invariant 0 <= k <= |selected| && tips == start.tips
        invariant CreateFrom(start, selected, outcome, 0) == CreateFrom(Now(), selected, outcome, k)
      {
        var w, tip := selected[k], tips[selected[k]];
        if outcome(k).Raises? {
          return;
        }
        if outcome(k).Clean? {
          dag, head := MergedDag(dag, head, tip), MergedHead(dag, head, tip);
        }
        if Recorded(sources, w) {
          return;
        }
        sources := sources + [Source(w, tip)];
        if outcome(k).Refused? {
          row := Row(false, None, InConflict);
          return;
        }
        k := k + 1;
      }
      row := Row(false, None, Testing);
    }

    method Invalidate()
      modifies this`row
      ensures Now() == Invalidated(old(Now()))
    {
      row := Row(false, None, Testing);
    }

    method IntegrationDetail() returns (stale: bool)
      modifies this`row
      ensures Now() == Viewed(old(Now()))
      ensures stale <==> old((row.verified.Some? && row.verified.value != head) || !TipsRecorded(Now()))
    {
      var moved := false;
      var i := 0;
      while i < |sources|
        invariant 0 <= i <= |sources|
        invariant moved <==>
          exists j :: 0 <= j < i && !(sources[j].workspace in tips && tips[sources[j].workspace] == sources[j].merged)
      {
        if !(sources[i].workspace in tips && tips[sources[i].workspace] == sources[i].merged) {
          moved := true;
        }
        i := i + 1;
      }
      assert moved <==> !TipsRecorded(Now());
      stale := moved || (row.verified.Some? && row.verified.value != head);
      if stale && row.ready {
        Invalidate();
      }
    }

    // Merges one source and records its tip.
    method Remerge(k: nat)
      requires k < |sources| && sources[k].workspace in tips
      modifies this`dag, this`head, this`sources
      ensures Now() == Remerged(old(Now()), k)
    {
      var w := sources[k].workspace;
      dag, head := MergedDag(dag, head, tips[w]), MergedHead(dag, head, tips[w]);
      sources := sources[k := Source(w, tips[w])];
    }

    method MergeLatest(conflicts: bool, outcome: nat -> MergeOutcome)
      requires forall x :: x in sources ==> x.workspace in tips
      modifies this
      ensures Now() == if conflicts then old(Now()) else MergeLatestFrom(Invalidated(old(Now())), outcome, 0)
    {
      if conflicts {
        return;
      }
      Invalidate();
      ghost var start := Now();
      var k := 0;
      while k < |sources|
        invariant 0 <= k <= |sources|
        invariant forall x :: x in sources ==> x.workspace in tips
        invariant MergeLatestFrom(start, outcome, 0) == MergeLatestFrom(Now(), outcome, k)
      {
        var w := sources[k].workspace;
        if tips[w] != sources[k].merged {
          if outcome(k).Raises? {
            return;
          }
          if outcome(k).Refused? {
            row := row.(status := InConflict);
            return;
          }
          Remerge(k);
        }
        k := k + 1;
      }
    }

    method TestIntegration(conflicts: bool, stages: Option<set<nat>>)
      modifies this
      ensures Now() == if conflicts then old(Now()) else TestsStarted(old(Now()), stages)
    {
      if conflicts || AnyActive(runs) {
        return;
      }
      Invalidate();
      if stages.Some? {
        runs, threads := runs + [TestRun(head, map stage | stage in stages.value :: Queued)], threads + 1;
      }
    }

    method ReadyMain(required: nat -> nat, clean: bool, conflicts: bool)
      modifies this
      ensures Now() == Marked(old(Now()), required, clean, conflicts)
    {
      if clean && !conflicts && SourcesCurrent(Now()) && GatePasses(runs, waived, required(head), head) {
        row, atMark := Row(true, Some(head), ReadyForMain), waived;
      }
    }
  }
}
