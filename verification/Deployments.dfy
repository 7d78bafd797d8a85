/**
 The deployments table over whole runs: the guarded commands deploy, redeploy and rollback, the rows
 Releases write, background runs that progress or die, and restarts (the deployment handlers of
 app/main.py, app/services/deployment_service.py and app/services/release_service.py).
 */
module Deployments {
  import opened Wrappers
  import opened DeploymentRun

  // workers says where the background run of a row is; a row without one is finished or abandoned.
  datatype State = State(rows: seq<Row>, workers: map<nat, Pc>)

  datatype Step =
    | Create(task: nat, repository: nat, environment: string, branch: string, source: nat)
    | Redeploy(id: nat)
    | Rollback(id: nat, images: set<string>)
    | Release(repository: nat, environment: string, branch: string, source: nat, artifact: Artifact)
    | ReleaseBuild(repository: nat, branch: string, source: nat, build: bool, found: Option<Metadata>)
    | Progress(id: nat, event: Event)
    | RunDies(id: nat)
    | Restart

  // latest_deployment among the first k rows, or -1.
  function Latest(rows: seq<Row>, key: Key, k: nat): (i: int)
    requires k <= |rows|
    ensures -1 <= i < k
  {
    if k == 0 then -1 else if rows[k - 1].key == key then k - 1 else Latest(rows, key, k - 1)
  }

  // The guard of the three commands. Its query compares task_id with =, which NULL never satisfies.
  predicate InFlight(rows: seq<Row>, key: Key) {
    var i := Latest(rows, key, |rows|);
    key.task.Some? && i >= 0 && Active(rows[i].status)
  }

  // The newest VERIFIED row of the lineage among the first k rows, or -1.
  function NewestVerified(rows: seq<Row>, key: Key, k: nat): (i: int)
    requires k <= |rows|
    ensures -1 <= i < k
  {
    if k == 0 then -1
    else if rows[k - 1].key == key && rows[k - 1].status.Verified? then k - 1
    else NewestVerified(rows, key, k - 1)
  }

  // rollback_target: None when the newest verified row has no image, or its image is gone.
  function RollbackTarget(rows: seq<Row>, id: nat, images: set<string>): Option<nat>
    requires id < |rows|
  {
    var i := NewestVerified(rows, rows[id].key, id);
    if i >= 0 && rows[i].artifact.image.Some? && rows[i].artifact.image.value in images then Some(i) else None
  }

  function NewRow(key: Key, branch: string, source: nat): Row {
    Row(key, branch, source, NoArtifact, None, Pending, Unchecked, Unchecked, None, None)
  }

  function RollbackRow(rows: seq<Row>, id: nat, target: nat): Row
    requires id < |rows| && target < |rows|
  {
    Row(rows[id].key, rows[target].branch, rows[target].source, rows[target].artifact, rows[target].artifactCommit,
        Pending, Unchecked, Unchecked, Some(id), Some(target))
  }

  // The row a Release builds with; it has no background run and no terminal status of its own.
  function BuildRow(repository: nat, branch: string, source: nat, build: bool, found: Option<Metadata>): Row {
    var row := NewRow(Key(None, repository, "BUILD"), branch, source).(status := if build then Building else Pending);
    if found.Some? && CommitMatches(row, found)
      then row.(artifact := found.value.artifact, artifactCommit := found.value.commit) else row
  }

  function Added(s: State, row: Row, runs: bool): State {
    State(s.rows + [row], if runs then s.workers[|s.rows| := Begin] else s.workers)
  }

  function Reconciled(row: Row): Row { if Active(row.status) then row.(status := Failed) else row }

  predicate Enabled(s: State, step: Step) {
    match step
    case Redeploy(id) => id < |s.rows|
    case Rollback(id, _) => id < |s.rows|
    case Progress(id, _) => id in s.workers && id < |s.rows|
    case RunDies(id) => id in s.workers
    case _ => true
  }

  function Progressed(s: State, id: nat, e: Event): State
    requires id in s.workers && id < |s.rows|
  {
    var (row, pc) := Advance(s.rows[id], s.workers[id], e);
    State(s.rows[id := row], if pc.Ended? then s.workers - {id} else s.workers[id := pc])
  }

  function RolledBackTo(s: State, id: nat, images: set<string>): State
    requires id < |s.rows|
  {
    match RollbackTarget(s.rows, id, images)
    case None => s
    case Some(target) => Added(s, RollbackRow(s.rows, id, target), true)
  }

  function Apply(s: State, step: Step): State
    requires Enabled(s, step)
  {
    match step
    case Create(task, repository, environment, branch, source) =>
      var key := Key(Some(task), repository, environment);
      if InFlight(s.rows, key) then s else Added(s, NewRow(key, branch, source), true)
    case Redeploy(id) =>
      var prev := s.rows[id];
      if InFlight(s.rows, prev.key) then s else Added(s, NewRow(prev.key, prev.branch, prev.source), true)
    case Rollback(id, images) => if InFlight(s.rows, s.rows[id].key) then s else RolledBackTo(s, id, images)
    case Release(repository, environment, branch, source, artifact) =>
      Added(s, NewRow(Key(None, repository, environment), branch, source).(artifact := artifact), true)
    case ReleaseBuild(repository, branch, source, build, found) =>
      Added(s, BuildRow(repository, branch, source, build, found), false)
    case Progress(id, e) => Progressed(s, id, e)
    case RunDies(id) => s.(workers := s.workers - {id})
    case Restart => State(seq(|s.rows|, i requires 0 <= i < |s.rows| => Reconciled(s.rows[i])), map[])
  }

  ghost predicate Leads(s: State, step: Step, s': State) { Enabled(s, step) && s' == Apply(s, step) }

  // States one step apart.
  ghost predicate Follows(states: seq<State>, steps: seq<Step>) {
    && |states| == |steps| + 1
    && forall i :: 0 <= i < |steps| ==> Leads(states[i], steps[i], states[i + 1])
  }

  const Empty := State([], map[])

  ghost predicate IsRun(states: seq<State>, steps: seq<Step>) { Follows(states, steps) && states[0] == Empty }

  ghost predicate Reaches(s: State, s': State) {
    exists states, steps :: Follows(states, steps) && states[0] == s && states[|steps|] == s'
  }

  lemma StepOf(states: seq<State>, steps: seq<Step>, i: nat)
    requires Follows(states, steps) && i < |steps|
    ensures Leads(states[i], steps[i], states[i + 1])
  {
  }

  lemma ReachesItself(s: State)
    ensures Reaches(s, s)
  {
    assert Follows([s], []);
  }

  lemma ReachesOn(s: State, s': State, step: Step)
    requires Reaches(s, s') && Enabled(s', step)
    ensures Reaches(s, Apply(s', step))
  {
    var states: seq<State>, steps: seq<Step> :| Follows(states, steps) && states[0] == s && states[|steps|] == s';
    var last := Apply(s', step);
    assert Follows(states + [last], steps + [step]) && (states + [last])[|steps + [step]|] == last;
  }

  // ---------------------------------------------------------------- invariants

  ghost predicate RowsOk(s: State) {
    && (forall i :: 0 <= i < |s.rows| ==> RowOk(s.rows[i]))
    && forall id :: id in s.workers ==> id < |s.rows| && !s.workers[id].Ended? && RunOk(s.rows[id], s.workers[id])
  }

  // Of the rows of one Task, repository and environment only the newest can be active.
  ghost predicate OnlyNewestActive(rows: seq<Row>) {
    forall i, j :: 0 <= i < j < |rows| && rows[i].key == rows[j].key && rows[i].key.task.Some? ==>
      !Active(rows[i].status)
  }

  // Row i carries what row t deployed, and t was verified before row o of the same lineage.
  ghost predicate Carries(rows: seq<Row>, i: nat, o: nat, t: nat) {
    && t < o < i < |rows|
    && rows[o].key == rows[i].key && rows[t].key == rows[i].key
    && rows[t].status.Verified? && rows[t].rollbackTo.None?
    && rows[i].source == rows[t].source && rows[i].branch == rows[t].branch
    && rows[i].artifact == rows[t].artifact && rows[i].artifactCommit == rows[t].artifactCommit
  }

  // No row of the lineage between t and o is verified.
  ghost predicate NoneBetween(rows: seq<Row>, key: Key, t: nat, o: nat) {
    forall m :: t < m < o && m < |rows| && rows[m].key == key ==> !rows[m].status.Verified?
  }

  ghost predicate LineageOk(rows: seq<Row>, i: nat)
    requires i < |rows|
  {
    rows[i].rollbackTo.Some? ==>
      && rows[i].rollbackOf.Some?
      && Carries(rows, i, rows[i].rollbackOf.value, rows[i].rollbackTo.value)
      && (rows[i].key.task.Some? ==> NoneBetween(rows, rows[i].key, rows[i].rollbackTo.value, rows[i].rollbackOf.value))
  }

  ghost predicate Lineages(rows: seq<Row>) { forall i :: 0 <= i < |rows| ==> LineageOk(rows, i) }

  ghost predicate Inv(s: State) { RowsOk(s) && OnlyNewestActive(s.rows) && Lineages(s.rows) }

  lemma {:induction false} LatestIsNewest(rows: seq<Row>, key: Key, k: nat)
    requires k <= |rows|
    ensures var i := Latest(rows, key, k);
      && (i >= 0 ==> rows[i].key == key)
      && forall j :: i < j < k ==> rows[j].key != key
  {
    if k > 0 { LatestIsNewest(rows, key, k - 1); }
  }

  lemma {:induction false} NewestVerifiedIsNewest(rows: seq<Row>, key: Key, k: nat)
    requires k <= |rows|
    ensures var i := NewestVerified(rows, key, k);
      && (i >= 0 ==> rows[i].key == key && rows[i].status.Verified?)
      && forall j :: i < j < k && rows[j].key == key ==> !rows[j].status.Verified?
  {
    if k > 0 { NewestVerifiedIsNewest(rows, key, k - 1); }
  }

  // Row t is the newest VERIFIED row of the lineage before row o.
  ghost predicate NewestBefore(rows: seq<Row>, key: Key, o: nat, t: nat) {
    && t < o <= |rows| && rows[t].key == key && rows[t].status == Verified
    && forall m :: t < m < o && rows[m].key == key ==> rows[m].status != Verified
  }

  // The guard looks at the newest row only; by the invariant no other can be active.
  lemma GuardSeesAll(rows: seq<Row>, key: Key)
    requires OnlyNewestActive(rows) && key.task.Some?
    ensures InFlight(rows, key) <==> exists i :: 0 <= i < |rows| && rows[i].key == key && Active(rows[i].status)
  {
    LatestIsNewest(rows, key, |rows|);
  }

  lemma AddKeepsLineages(rows: seq<Row>, row: Row)
    requires Lineages(rows) && LineageOk(rows + [row], |rows|)
    ensures Lineages(rows + [row])
  {
    forall i | 0 <= i < |rows| + 1 ensures LineageOk(rows + [row], i) {
      assert i < |rows| ==> LineageOk(rows, i);
    }
  }

  lemma AddKeeps(s: State, row: Row, runs: bool)
    requires Inv(s) && RowOk(row) && (runs ==> RunOk(row, Begin)) && LineageOk(s.rows + [row], |s.rows|)
    requires row.key.task.Some? ==> !InFlight(s.rows, row.key)
    ensures Inv(Added(s, row, runs))
  {
    AddKeepsLineages(s.rows, row);
    if row.key.task.Some? { GuardSeesAll(s.rows, row.key); }
  }

  lemma RollbackKeeps(s: State, id: nat, images: set<string>)
    requires Inv(s) && id < |s.rows| && !InFlight(s.rows, s.rows[id].key)
    ensures Inv(RolledBackTo(s, id, images))
  {
    var target := RollbackTarget(s.rows, id, images);
    NewestVerifiedIsNewest(s.rows, s.rows[id].key, id);
    if target.Some? {
      assert RowOk(s.rows[target.value]);
      AddKeeps(s, RollbackRow(s.rows, id, target.value), true);
    }
  }

  // A step of an active row disturbs no lineage: the row is no target, and in the lineage of a Task
  // every row but the newest has ended.
  lemma UpdateKeepsLineages(rows: seq<Row>, id: nat, row: Row)
    requires Lineages(rows) && OnlyNewestActive(rows) && id < |rows| && Active(rows[id].status) &&
      SameIdentity(rows[id], row)
    ensures Lineages(rows[id := row])
  {
    var rows' := rows[id := row];
    forall i | 0 <= i < |rows'| ensures LineageOk(rows', i) {
      assert LineageOk(rows, i);
    }
  }

  lemma ProgressKeeps(s: State, id: nat, e: Event)
    requires Inv(s) && id in s.workers
    ensures Inv(Progressed(s, id, e))
  {
    AdvanceKeeps(s.rows[id], s.workers[id], e);
    UpdateKeepsLineages(s.rows, id, Advance(s.rows[id], s.workers[id], e).0);
  }

  lemma RestartKeeps(s: State)
    requires Inv(s)
    ensures Inv(Apply(s, Restart))
  {
    var rows := Apply(s, Restart).rows;
    forall i | 0 <= i < |rows| ensures LineageOk(rows, i) {
      assert LineageOk(s.rows, i);
    }
  }

  lemma StepKeepsInv(s: State, step: Step)
    requires Inv(s) && Enabled(s, step)
    ensures Inv(Apply(s, step))
  {
    match step
    case Create(task, repository, environment, branch, source) =>
      var key := Key(Some(task), repository, environment);
      if !InFlight(s.rows, key) { AddKeeps(s, NewRow(key, branch, source), true); }
    case Redeploy(id) =>
      var prev := s.rows[id];
      if !InFlight(s.rows, prev.key) { AddKeeps(s, NewRow(prev.key, prev.branch, prev.source), true); }
    case Rollback(id, images) => if !InFlight(s.rows, s.rows[id].key) { RollbackKeeps(s, id, images); }
    case Release(repository, environment, branch, source, artifact) =>
      AddKeeps(s, NewRow(Key(None, repository, environment), branch, source).(artifact := artifact), true);
    case ReleaseBuild(repository, branch, source, build, found) =>
      AddKeeps(s, BuildRow(repository, branch, source, build, found), false);
    case Progress(id, e) => ProgressKeeps(s, id, e);
    case RunDies(id) =>
    case Restart => RestartKeeps(s);
  }

  lemma FollowsKeepsInv(states: seq<State>, steps: seq<Step>, k: nat)
    requires Follows(states, steps) && k <= |steps| && Inv(states[0])
    ensures Inv(states[k])
  {
    for i := 0 to k
      invariant Inv(states[i])
    {
      StepOf(states, steps, i);
      StepKeepsInv(states[i], steps[i]);
    }
  }

  lemma RunKeepsInv(states: seq<State>, steps: seq<Step>, k: nat)
    requires IsRun(states, steps) && k <= |steps|
    ensures Inv(states[k])
  {
    FollowsKeepsInv(states, steps, k);
  }

  // ---------------------------------------------------------------- main results

  // MAIN: at most one row of a Task, repository and environment is active, and it is the newest one.
  lemma OneActive(states: seq<State>, steps: seq<Step>, k: nat, i: nat, j: nat)
    requires IsRun(states, steps) && k <= |steps| && i < j < |states[k].rows|
    requires states[k].rows[i].key == states[k].rows[j].key && states[k].rows[i].key.task.Some?
    ensures !Active(states[k].rows[i].status)
  {
    RunKeepsInv(states, steps, k);
  }

  // A step keeps what every row is a deployment of, and every row that has ended exactly as it is.
  lemma StepKeepsRows(s: State, step: Step, i: nat)
    requires Inv(s) && Enabled(s, step) && i < |s.rows|
    ensures var s' := Apply(s, step);
      && i < |s'.rows| && SameIdentity(s.rows[i], s'.rows[i])
      && (!Active(s.rows[i].status) ==> s'.rows[i] == s.rows[i])
  {
    if step.Progress? { AdvanceKeeps(s.rows[step.id], s.workers[step.id], step.event); }
  }

  lemma EndedStays(states: seq<State>, steps: seq<Step>, k: nat, m: nat, i: nat)
    requires Follows(states, steps) && Inv(states[0]) && k <= m <= |steps|
    requires i < |states[k].rows| && !Active(states[k].rows[i].status)
    ensures i < |states[m].rows| && states[m].rows[i] == states[k].rows[i]
  {
    var row := states[k].rows[i];
    for j := k to m
      invariant i < |states[j].rows| && states[j].rows[i] == row
    {
      FollowsKeepsInv(states, steps, j);
      StepOf(states, steps, j);
      StepKeepsRows(states[j], steps[j], i);
    }
  }

  // MAIN: once a row has ended, no later step of any run changes it.
  lemma TerminalIsFinal(states: seq<State>, steps: seq<Step>, k: nat, m: nat, i: nat)
    requires IsRun(states, steps) && k <= m <= |steps| && i < |states[k].rows| && !Active(states[k].rows[i].status)
    ensures i < |states[m].rows| && states[m].rows[i] == states[k].rows[i]
  {
    EndedStays(states, steps, k, m, i);
  }

  // MAIN: VERIFIED and ROLLED_BACK are reached only with health and smoke passed, and an artifact
  // whose metadata names a commit names the commit of the row.
  lemma SuccessIsEarned(states: seq<State>, steps: seq<Step>, k: nat, i: nat)
    requires IsRun(states, steps) && k <= |steps| && i < |states[k].rows|
    ensures var row := states[k].rows[i];
      && (Successful(row.status) ==> row.health.CheckPassed? && row.smoke.CheckPassed?)
      && (row.artifactCommit.Some? ==> row.artifactCommit.value == row.source)
  {
    RunKeepsInv(states, steps, k);
    assert RowOk(states[k].rows[i]);
  }

  // MAIN: in every state a rollback row carries exactly what an earlier VERIFIED deployment of its own
  // lineage carries, which is no rollback itself; in the lineage of a Task that deployment is still
  // the newest VERIFIED one before the row rolled back. No rollback builds or becomes VERIFIED.
  lemma RollbackLineage(states: seq<State>, steps: seq<Step>, k: nat, i: nat)
    requires IsRun(states, steps) && k <= |steps| && i < |states[k].rows| && states[k].rows[i].rollbackTo.Some?
    ensures var rows, row := states[k].rows, states[k].rows[i];
      && row.rollbackOf.Some? && Carries(rows, i, row.rollbackOf.value, row.rollbackTo.value)
      && (row.key.task.Some? ==> NewestBefore(rows, row.key, row.rollbackOf.value, row.rollbackTo.value))
      && !row.status.Building? && !row.status.Verified?
  {
    var rows, row := states[k].rows, states[k].rows[i];
    RunKeepsInv(states, steps, k);
    assert LineageOk(rows, i) && RowOk(row);
  }

  // ---------------------------------------------------------------- what a command adds

  const InProgress: set<Status> := {Pending, Preparing, Building, Deploying, Verifying}

  // A deployment of this Task, repository and environment is under way.
  ghost predicate UnderWay(rows: seq<Row>, key: Key) {
    key.task != None && exists i :: 0 <= i < |rows| && rows[i].key == key && rows[i].status in InProgress
  }

  // That row has an image that is still there.
  ghost predicate IsTarget(rows: seq<Row>, id: nat, t: nat, images: set<string>) {
    && id < |rows| && NewestBefore(rows, rows[id].key, id, t)
    && rows[t].artifact.image != None && rows[t].artifact.image.value in images
  }

  lemma TargetExactly(rows: seq<Row>, id: nat, images: set<string>, t: nat)
    requires id < |rows|
    ensures RollbackTarget(rows, id, images) == Some(t) <==> IsTarget(rows, id, t, images)
  {
    NewestVerifiedIsNewest(rows, rows[id].key, id);
  }

  lemma GuardExactly(rows: seq<Row>, key: Key)
    requires OnlyNewestActive(rows)
    ensures InFlight(rows, key) <==> UnderWay(rows, key)
  {
    if key.task.Some? { GuardSeesAll(rows, key); }
  }

  // One row was added, with a run of its own that is about to begin.
  ghost predicate Adds(s: State, s': State, row: Row) {
    s'.rows == s.rows + [row] && s'.workers == s.workers[|s.rows| := Begin]
  }

  // What a rollback of row id to row t is: the artifact and source of t, in the place of id.
  ghost function RowFor(rows: seq<Row>, id: nat, t: nat): Row
    requires id < |rows| && t < |rows|
  {
    var to := rows[t];
    Row(rows[id].key, to.branch, to.source, to.artifact, to.artifactCommit, Pending, Unchecked, Unchecked, Some(id),
      Some(t))
  }

  // MAIN: a rollback adds a row if and only if no deployment of its Task, repository and environment is under
  // way and there is a target: the newest earlier VERIFIED row of the lineage, if it has an image that still
  // exists. The row carries what the target deployed. Otherwise nothing changes.
  lemma RollbackExactly(s: State, id: nat, images: set<string>)
    requires Inv(s) && id < |s.rows|
    ensures var s', key := Apply(s, Rollback(id, images)), s.rows[id].key;
      if UnderWay(s.rows, key) || (forall t: nat :: !IsTarget(s.rows, id, t, images)) then s' == s
      else exists t: nat :: IsTarget(s.rows, id, t, images) && Adds(s, s', RowFor(s.rows, id, t))
  {
    GuardExactly(s.rows, s.rows[id].key);
    forall t: nat ensures RollbackTarget(s.rows, id, images) == Some(t) <==> IsTarget(s.rows, id, t, images) {
      TargetExactly(s.rows, id, images, t);
    }
  }

  // MAIN: a deploy or redeploy adds a row if and only if none of its Task, repository and environment is under
  // way; the row of a redeploy has the source commit and the branch of the row redeployed.
  lemma DeployExactly(s: State, task: nat, repository: nat, environment: string, branch: string, source: nat, id: nat)
    requires Inv(s) && id < |s.rows|
    ensures var key, s' := Key(Some(task), repository, environment),
        Apply(s, Create(task, repository, environment, branch, source));
      if UnderWay(s.rows, key) then s' == s else Adds(s, s', Requested(key, branch, source))
    ensures var key, s' := s.rows[id].key, Apply(s, Redeploy(id));
      if UnderWay(s.rows, key) then s' == s else Adds(s, s', Requested(key, s.rows[id].branch, s.rows[id].source))
  {
    GuardExactly(s.rows, Key(Some(task), repository, environment));
    GuardExactly(s.rows, s.rows[id].key);
  }

  // A deployment that has only been requested.
  ghost function Requested(key: Key, branch: string, source: nat): Row {
    Row(key, branch, source, NoArtifact, None, Pending, Unchecked, Unchecked, None, None)
  }

  // Releases deploy their own artifact, without a Task and so without a guard; the row a Release builds with has
  // no background run, and an artifact only if its metadata names no other commit.
  lemma ReleaseExactly(
    s: State, repository: nat, environment: string, branch: string, source: nat, artifact: Artifact, build: bool,
    found: Option<Metadata>)
    ensures Adds(s, Apply(s, Release(repository, environment, branch, source, artifact)),
      Requested(Key(None, repository, environment), branch, source).(artifact := artifact))
    ensures var s' := Apply(s, ReleaseBuild(repository, branch, source, build, found));
      var row := Requested(Key(None, repository, "BUILD"), branch, source)
        .(status := if build then Building else Pending);
      && s'.workers == s.workers && |s'.rows| == |s.rows| + 1 && s'.rows[..|s.rows|] == s.rows
      && s'.rows[|s.rows|] ==
        if found != None && NamesNoOther(row, found)
        then row.(artifact := found.value.artifact, artifactCommit := found.value.commit) else row
  {
  }

  // Only the rollback command writes a rollback row, and the image of the row was present then.
  lemma AddedRollback(s: State, step: Step, i: nat)
    requires Inv(s) && Enabled(s, step) && |s.rows| <= i < |Apply(s, step).rows|
    requires Apply(s, step).rows[i].rollbackTo.Some?
    ensures step.Rollback? && i == |s.rows|
    ensures var image := Apply(s, step).rows[i].artifact.image; image != None && image.value in step.images
  {
    if step.Rollback? { RollbackExactly(s, step.id, step.images); }
  }

  // MAIN: in every run, the image that a rollback row deploys was present when the row was added.
  lemma RollbackHadImage(states: seq<State>, steps: seq<Step>, k: nat, i: nat)
    requires IsRun(states, steps) && k <= |steps| && i < |states[k].rows| && states[k].rows[i].rollbackTo.Some?
    ensures exists j :: 0 <= j < k && |states[j].rows| == i && HadImage(steps[j], states[k].rows[i])
  {
    if k > 0 {
      RunKeepsInv(states, steps, k - 1);
      StepOf(states, steps, k - 1);
      if i < |states[k - 1].rows| {
        StepKeepsRows(states[k - 1], steps[k - 1], i);
        RollbackHadImage(states, steps, k - 1, i);
        var j :| 0 <= j < k - 1 && |states[j].rows| == i && HadImage(steps[j], states[k - 1].rows[i]);
        assert HadImage(steps[j], states[k].rows[i]);
      } else {
        AddedRollback(states[k - 1], steps[k - 1], i);
        assert HadImage(steps[k - 1], states[k].rows[i]);
      }
    }
  }

  ghost predicate HadImage(step: Step, row: Row) {
    step.Rollback? && row.artifact.image != None && row.artifact.image.value in step.images
  }

  // A restart fails every row under way, rollbacks included, ends every run, and changes nothing else.
  lemma RestartExactly(s: State, i: nat)
    requires i < |s.rows|
    ensures var s' := Apply(s, Restart);
      && |s'.rows| == |s.rows| && s'.workers == map[]
      && s'.rows[i] == if s.rows[i].status in InProgress then s.rows[i].(status := Failed) else s.rows[i]
  {
  }

  // ---------------------------------------------------------------- when the rollback target stays

  // The background run of the row can still end in VERIFIED: it is alive, no rollback, and has not met
  // a failure yet.
  ghost predicate CanVerify(s: State, m: nat) {
    m in s.workers && m < |s.rows| && s.rows[m].rollbackTo.None? && !s.workers[m].Fail?
  }

  // The row is not VERIFIED and never will be.
  ghost predicate NeverVerifies(s: State, m: nat) { m < |s.rows| && !s.rows[m].status.Verified? && !CanVerify(s, m) }

  lemma StepKeepsUnverified(s: State, step: Step, m: nat)
    requires Inv(s) && Enabled(s, step) && NeverVerifies(s, m)
    ensures NeverVerifies(Apply(s, step), m)
  {
    if step.Progress? && step.id == m {
      assert RowOk(s.rows[m]) && RunOk(s.rows[m], s.workers[m]);
    }
  }

  lemma UnverifiedStays(states: seq<State>, steps: seq<Step>, k: nat, m: nat)
    requires Follows(states, steps) && Inv(states[0]) && k <= |steps| && NeverVerifies(states[0], m)
    ensures NeverVerifies(states[k], m)
  {
    for j := 0 to k
      invariant NeverVerifies(states[j], m)
    {
      FollowsKeepsInv(states, steps, j);
      StepOf(states, steps, j);
      StepKeepsUnverified(states[j], steps[j], m);
    }
  }

  lemma KeyStays(states: seq<State>, steps: seq<Step>, k: nat, m: nat)
    requires Follows(states, steps) && Inv(states[0]) && k <= |steps| && m < |states[0].rows|
    ensures m < |states[k].rows| && states[k].rows[m].key == states[0].rows[m].key
  {
    for j := 0 to k
      invariant m < |states[j].rows| && states[j].rows[m].key == states[0].rows[m].key
    {
      FollowsKeepsInv(states, steps, j);
      StepOf(states, steps, j);
      StepKeepsRows(states[j], steps[j], m);
    }
  }

  // Row m with its run carried through to VERIFIED, every step of it succeeding.
  ghost function CarriedThrough(s: State, m: nat): State
    requires m < |s.rows|
  {
    State(s.rows[m := AsVerified(s.rows[m])], s.workers - {m})
  }

  ghost function AsVerified(row: Row): Row { row.(status := Verified, health := CheckPassed, smoke := CheckPassed) }

  const Succeeding := Event(true, false, None)

  lemma SucceedRow(row: Row, pc: Pc)
    requires RowOk(row) && RunOk(row, pc) && row.rollbackTo.None? && !pc.Fail? && !pc.Ended?
    ensures var (row', pc') := Advance(row, pc, Succeeding);
      && AsVerified(row') == AsVerified(row) && row'.rollbackTo.None?
      && (pc.Conclude? ==> row' == AsVerified(row) && pc'.Ended?)
      && (!pc.Conclude? ==> !pc'.Fail? && !pc'.Ended? && Ranking(pc') < Ranking(pc))
  {
  }

  lemma SucceedOne(s: State, m: nat)
    requires Inv(s) && CanVerify(s, m)
    ensures var s' := Progressed(s, m, Succeeding);
      && m < |s'.rows| && CarriedThrough(s', m) == CarriedThrough(s, m)
      && (if s.workers[m].Conclude? then s' == CarriedThrough(s, m)
          else CanVerify(s', m) && Ranking(s'.workers[m]) < Ranking(s.workers[m]))
  {
    SucceedRow(s.rows[m], s.workers[m]);
    var s' := Progressed(s, m, Succeeding);
    assert s'.workers - {m} == s.workers - {m};
    assert CarriedThrough(s', m).rows == CarriedThrough(s, m).rows;
  }

  // One continuation carries the run through.
  lemma {:induction false} CanBeVerified(start: State, s: State, m: nat)
    requires Inv(s) && CanVerify(s, m) && Reaches(start, s)
    ensures Reaches(start, CarriedThrough(s, m))
    decreases Ranking(s.workers[m])
  {
    var s' := Progressed(s, m, Succeeding);
    SucceedOne(s, m);
    ReachesOn(start, s, Progress(m, Succeeding));
    if !s.workers[m].Conclude? {
      StepKeepsInv(s, Progress(m, Succeeding));
      CanBeVerified(start, s', m);
    }
  }

  // In every continuation the target is still the newest VERIFIED row of the lineage before row o.
  ghost predicate TargetStays(s: State, key: Key, o: nat, t: nat) {
    forall s' :: Reaches(s, s') ==> NewestBefore(s'.rows, key, o, t)
  }

  // A row of the lineage between the target and the row rolled back that can still be verified.
  ghost predicate Overtaker(s: State, key: Key, t: nat, o: nat, m: nat) {
    t < m < o && m < |s.rows| && s.rows[m].key == key && CanVerify(s, m)
  }

  lemma NoOvertakerStays(s: State, key: Key, t: nat, o: nat)
    requires Inv(s) && NewestBefore(s.rows, key, o, t)
    requires forall m :: !Overtaker(s, key, t, o, m)
    ensures TargetStays(s, key, o, t)
  {
    forall s' | Reaches(s, s') ensures NewestBefore(s'.rows, key, o, t) {
      var states: seq<State>, steps: seq<Step> :| Follows(states, steps) && states[0] == s && states[|steps|] == s';
      EndedStays(states, steps, 0, |steps|, t);
      KeyStays(states, steps, |steps|, o - 1);
      forall m | t < m < o && s'.rows[m].key == key ensures !s'.rows[m].status.Verified? {
        KeyStays(states, steps, |steps|, m);
        assert !Overtaker(s, key, t, o, m);
        UnverifiedStays(states, steps, |steps|, m);
      }
    }
  }

  lemma OvertakerOvertakes(s: State, key: Key, t: nat, o: nat, m: nat)
    requires Inv(s) && o <= |s.rows| && Overtaker(s, key, t, o, m)
    ensures !TargetStays(s, key, o, t)
  {
    var s' := CarriedThrough(s, m);
    ReachesItself(s);
    CanBeVerified(s, s, m);
    assert s'.rows[m].key == key && s'.rows[m].status.Verified?;
  }

  // MAIN: the target of an accepted rollback stays the newest VERIFIED row before the row rolled back, in
  // every continuation, if and only if no deployment of the lineage between the two can still succeed
  // when the rollback is requested.
  lemma TargetStaysExactly(s: State, o: nat, images: set<string>, t: nat)
    requires Inv(s) && o < |s.rows| && !UnderWay(s.rows, s.rows[o].key) && IsTarget(s.rows, o, t, images)
    ensures TargetStays(Apply(s, Rollback(o, images)), s.rows[o].key, o, t) <==>
      forall m :: !Overtaker(s, s.rows[o].key, t, o, m)
  {
    var key, s' := s.rows[o].key, Apply(s, Rollback(o, images));
    GuardExactly(s.rows, key);
    TargetExactly(s.rows, o, images, t);
    RollbackKeeps(s, o, images);
    forall m ensures Overtaker(s', key, t, o, m) <==> Overtaker(s, key, t, o, m) {
    }
    if m :| Overtaker(s, key, t, o, m) {
      assert Overtaker(s', key, t, o, m);
      OvertakerOvertakes(s', key, t, o, m);
    } else {
      NoOvertakerStays(s', key, t, o);
    }
  }

  // ---------------------------------------------------------------- a Release lineage that moves

  const ReleaseKey := Key(None, 1, "TEST")

  ghost function ReleaseRow(image: string): Row {
    NewRow(ReleaseKey, "main", 5).(artifact := NoArtifact.(image := Some(image)))
  }

  // The first deployment is verified, the second has only begun, the third has failed.
  ghost function Overtaken(image: string): State {
    var row := ReleaseRow(image);
    State([AsVerified(row), row, row.(status := Failed)], map[1 := Begin])
  }

  lemma ReleaseAdds(s: State, image: string)
    requires Reaches(Empty, s)
    ensures Reaches(Empty, State(s.rows + [ReleaseRow(image)], s.workers[|s.rows| := Begin]))
  {
    ReachesOn(Empty, s, Release(1, "TEST", "main", 5, NoArtifact.(image := Some(image))));
  }

  lemma FirstVerified(image: string)
    ensures Reaches(Empty, State([AsVerified(ReleaseRow(image))], map[]))
  {
    var s := State([ReleaseRow(image)], map[0 := Begin]);
    ReachesItself(Empty);
    ReleaseAdds(Empty, image);
    assert Empty.rows + [ReleaseRow(image)] == s.rows;
    assert Inv(s);
    CanBeVerified(Empty, s, 0);
    assert CarriedThrough(s, 0) == State([AsVerified(ReleaseRow(image))], map[]);
  }

  // A deployment that cannot prepare its source.
  lemma FailsAtOnce(s: State, m: nat)
    requires Reaches(Empty, s) && m in s.workers && m < |s.rows| && s.workers[m].Begin? && s.rows[m].rollbackTo.None?
    ensures Reaches(Empty, State(s.rows[m := s.rows[m].(status := Failed)], s.workers - {m}))
  {
    var failing := Event(false, false, None);
    var s1 := Progressed(s, m, failing);
    var s2 := Progressed(s1, m, failing);
    var s3 := Progressed(s2, m, failing);
    ReachesOn(Empty, s, Progress(m, failing));
    ReachesOn(Empty, s1, Progress(m, failing));
    ReachesOn(Empty, s2, Progress(m, failing));
    assert s3.rows == s.rows[m := s.rows[m].(status := Failed)];
    assert s3.workers == s.workers - {m};
  }

  lemma OvertakenIsReached(image: string)
    ensures Reaches(Empty, Overtaken(image))
  {
    var row := ReleaseRow(image);
    var done := AsVerified(row);
    FirstVerified(image);
    ReleaseAdds(State([done], map[]), image);
    assert [done] + [row] == [done, row];
    ReleaseAdds(State([done, row], map[1 := Begin]), image);
    assert [done, row] + [row] == [done, row, row];
    FailsAtOnce(State([done, row, row], map[1 := Begin, 2 := Begin]), 2);
    assert map[1 := Begin, 2 := Begin] - {2} == map[1 := Begin];
    assert [done, row, row][2 := row.(status := Failed)] == Overtaken(image).rows;
  }

  // Without a Task the guard never refuses, so an older run can still become VERIFIED afterwards: in a
  // run from empty tables row 3 rolls back to row 0, and the newer row 1 can be verified after that.
  lemma ReleaseLineageCanMove(image: string)
    ensures var s := Overtaken(image);
      && Reaches(Empty, s)
      && IsTarget(s.rows, 2, 0, {image}) && Adds(s, Apply(s, Rollback(2, {image})), RowFor(s.rows, 2, 0))
      && !TargetStays(Apply(s, Rollback(2, {image})), ReleaseKey, 2, 0)
  {
    var s := Overtaken(image);
    OvertakenIsReached(image);
    var states: seq<State>, steps: seq<Step> :| Follows(states, steps) && states[0] == Empty && states[|steps|] == s;
    FollowsKeepsInv(states, steps, |steps|);
    assert IsTarget(s.rows, 2, 0, {image});
    TargetExactly(s.rows, 2, {image}, 0);
    assert Overtaker(s, ReleaseKey, 0, 2, 1);
    TargetStaysExactly(s, 2, {image}, 0);
  }

  // ---------------------------------------------------------------- what a restart is needed for

  // The newest row of the key is active, and its background run is dead.
  ghost predicate Stuck(s: State, key: Key) {
    var i := Latest(s.rows, key, |s.rows|);
    key.task.Some? && i >= 0 && Active(s.rows[i].status) && i !in s.workers
  }

  // A command for this key.
  ghost predicate CommandFor(s: State, step: Step, key: Key) {
    match step
    case Create(task, repository, environment, _, _) => Key(Some(task), repository, environment) == key
    case Redeploy(id) => id < |s.rows| && s.rows[id].key == key
    case Rollback(id, _) => id < |s.rows| && s.rows[id].key == key
    case _ => false
  }

  lemma LatestIs(rows: seq<Row>, key: Key, i: nat)
    requires i < |rows| && rows[i].key == key && forall j :: i < j < |rows| ==> rows[j].key != key
    ensures Latest(rows, key, |rows|) == i
  {
    LatestIsNewest(rows, key, |rows|);
  }

  // A deployment whose run dies gets its key stuck.
  lemma StuckIsReached(task: nat, repository: nat, environment: string, branch: string, source: nat)
    ensures exists s :: Reaches(Empty, s) && Stuck(s, Key(Some(task), repository, environment))
  {
    var create := Create(task, repository, environment, branch, source);
    var s := Apply(Empty, create);
    ReachesItself(Empty);
    ReachesOn(Empty, Empty, create);
    ReachesOn(Empty, s, RunDies(0));
    assert Stuck(Apply(s, RunDies(0)), Key(Some(task), repository, environment));
  }

  // Rows of other keys, and steps of other rows, do not free a key that is stuck.
  lemma StepKeepsStuck(s: State, step: Step, key: Key)
    requires Inv(s) && Enabled(s, step) && Stuck(s, key) && !step.Restart?
    ensures Stuck(Apply(s, step), key)
  {
    var i, s' := Latest(s.rows, key, |s.rows|), Apply(s, step);
    LatestIsNewest(s.rows, key, |s.rows|);
    assert s'.rows[i] == s.rows[i] && i !in s'.workers;
    forall j | i < j < |s'.rows| ensures s'.rows[j].key != key {
      if j < |s.rows| { StepKeepsRows(s, step, j); }
    }
    LatestIs(s'.rows, key, i);
  }

  lemma StuckRefuses(s: State, step: Step, key: Key)
    requires Stuck(s, key) && Enabled(s, step) && CommandFor(s, step, key)
    ensures Apply(s, step) == s
  {
  }

  lemma RestartLeavesNoneActive(s: State, key: Key)
    ensures var s' := Apply(s, Restart);
      && (forall i :: 0 <= i < |s'.rows| ==> !Active(s'.rows[i].status)) && s'.workers == map[]
      && !InFlight(s'.rows, key)
  {
    var s' := Apply(s, Restart);
    LatestIsNewest(s'.rows, key, |s'.rows|);
  }

  // MAIN: once the run of a Task's newest deployment has died, every command for its key is refused in
  // every continuation without a restart; after a restart, which leaves no row active anywhere, the same
  // commands add a row again, a rollback provided it has a target.
  lemma StuckUntilRestart(states: seq<State>, steps: seq<Step>, k: nat, key: Key, command: Step)
    requires Follows(states, steps) && Inv(states[0]) && Stuck(states[0], key) && k <= |steps|
    requires forall j :: 0 <= j < k ==> !steps[j].Restart?
    requires CommandFor(states[k], command, key) && Enabled(states[k], command)
    ensures Apply(states[k], command) == states[k]
    ensures var s' := Apply(states[k], Restart);
      && (forall i :: 0 <= i < |s'.rows| ==> !Active(s'.rows[i].status))
      && Enabled(s', command)
      && (command.Rollback? ==>
        (|Apply(s', command).rows| == |s'.rows| + 1 <==>
          exists t: nat :: IsTarget(s'.rows, command.id, t, command.images)))
      && (!command.Rollback? ==> |Apply(s', command).rows| == |s'.rows| + 1)
  {
    for j := 0 to k
      invariant Stuck(states[j], key)
    {
      FollowsKeepsInv(states, steps, j);
      StepOf(states, steps, j);
      StepKeepsStuck(states[j], steps[j], key);
    }
    StuckRefuses(states[k], command, key);
    RestartLeavesNoneActive(states[k], key);
    if command.Rollback? {
      FollowsKeepsInv(states, steps, k);
      StepKeepsInv(states[k], Restart);
      RollbackExactly(Apply(states[k], Restart), command.id, command.images);
    }
  }

  // ---------------------------------------------------------------- the handlers

  class DeploymentTable {
    var rows: seq<Row>
    var workers: map<nat, Pc>

    constructor ()
      ensures Now() == Empty
    {
      rows, workers := [], map[];
    }

    function Now(): State
      reads this
    {
      State(rows, workers)
    }

    method Insert(row: Row) returns (id: nat)
      modifies this
      ensures id == |old(rows)| && Now() == Added(old(Now()), row, true)
    {
      id := |rows|;
      rows, workers := rows + [row], workers[|rows| := Begin];
    }

    method CreateDeployment(task: nat, repository: nat, environment: string, branch: string, source: nat)
      modifies this
      ensures Now() == Apply(old(Now()), Create(task, repository, environment, branch, source))
    {
      var key := Key(Some(task), repository, environment);
      if InFlight(rows, key) {
        return;
      }
      var id := Insert(NewRow(key, branch, source));
    }

    method RedeployRow(id: nat)
      requires id < |rows|
      modifies this
      ensures Now() == Apply(old(Now()), Redeploy(id))
    {
      if InFlight(rows, rows[id].key) {
        return;
      }
      var did := Insert(NewRow(rows[id].key, rows[id].branch, rows[id].source));
    }

    method RollbackDeployment(id: nat, images: set<string>) returns (ok: bool, added: nat)
      requires id < |rows|
      modifies this
      ensures Now() == Apply(old(Now()), Rollback(id, images))
      ensures ok <==> !InFlight(old(rows), old(rows)[id].key) && exists t: nat :: IsTarget(old(rows), id, t, images)
      ensures ok ==> added == |old(rows)|
    {
      if InFlight(rows, rows[id].key) {
        return false, 0;
      }
      forall t: nat ensures RollbackTarget(rows, id, images) == Some(t) <==> IsTarget(rows, id, t, images) {
        TargetExactly(rows, id, images, t);
      }
      match RollbackTarget(rows, id, images)
      case None => return false, 0;
      case Some(target) =>
        added := Insert(RollbackRow(rows, id, target));
        ok := true;
    }

    method ReconcileOnStartup()
      modifies this
      ensures Now() == Apply(old(Now()), Restart)
    {
      workers := map[];
      for i := 0 to |rows|
        invariant workers == map[] && |rows| == |old(rows)|
        invariant forall j :: 0 <= j < |rows| ==> rows[j] == if j < i then Reconciled(old(rows)[j]) else old(rows)[j]
      {
        if Active(rows[i].status) {
          rows := rows[i := rows[i].(status := Failed)];
        }
      }
    }
  }
}
