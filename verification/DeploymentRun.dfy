/**
 One deployment row and the background run that moves it through its phases
 (_run, build_once, _verify_health_and_smoke and _run_rollback in app/services/deployment_service.py).
 Every UPDATE of the row is one step of the run.
 */
module DeploymentRun {
  import opened Wrappers

  datatype Status =
    | Pending | Preparing | Building | Deploying | Verifying
    | Verified | Failed | RolledBack | RollbackFailed

  predicate Active(status: Status) {
    status.Pending? || status.Preparing? || status.Building? || status.Deploying? || status.Verifying?
  }

  datatype Check = Unchecked | CheckPassed | CheckFailed

  datatype Artifact = Artifact(
    version: Option<string>, image: Option<string>, digest: Option<string>, filename: Option<string>,
      sha256: Option<string>)

  const NoArtifact := Artifact(None, None, None, None, None)

  // A Task's deployments to one environment; Releases deploy without a Task.
  datatype Key = Key(task: Option<nat>, repository: nat, environment: string)

  // artifactCommit is the source commit the artifact metadata named, when it named one.
  datatype Row = Row(
    key: Key, branch: string, source: nat, artifact: Artifact, artifactCommit: Option<nat>, status: Status,
    health: Check, smoke: Check, rollbackOf: Option<nat>, rollbackTo: Option<nat>)

  // What one step of a run meets: whether its command or check succeeds, whether a build is needed,
  // and the artifact metadata found, if any.
  datatype Event = Event(ok: bool, build: bool, found: Option<Metadata>)

  datatype Metadata = Metadata(artifact: Artifact, commit: Option<nat>)

  datatype Pc = Begin | Prepare | Build | BuildCommand | ReadArtifact | Deploy | DeployCommand | Verify | Health |
    Smoke | Conclude | Fail | Ended

  function Ranking(pc: Pc): nat {
    match pc
    case Begin => 12 case Prepare => 11 case Build => 10 case BuildCommand => 9 case ReadArtifact => 8
    case Deploy => 7 case DeployCommand => 6 case Verify => 5 case Health => 4 case Smoke => 3
    case Conclude => 2 case Fail => 1 case Ended => 0
  }

  function Passed(ok: bool): Check { if ok then CheckPassed else CheckFailed }

  // One step of a deploy, or of a rollback, which skips preparing and building.
  function Advance(row: Row, pc: Pc, e: Event): (Row, Pc) {
    match pc
    case Begin => (row.(status := Preparing), if row.rollbackTo.Some? then Deploy else Prepare)
    case Prepare => (row, if e.ok then Build else Fail)
    case Build => if e.build then (row.(status := Building), BuildCommand) else (row, ReadArtifact)
    case BuildCommand => (row, if e.ok then ReadArtifact else Fail)
    case ReadArtifact =>
      if e.found.None? then (row, Deploy)
      else if e.found.value.commit.Some? && e.found.value.commit.value != row.source then (row, Fail)
      else (row.(artifact := e.found.value.artifact, artifactCommit := e.found.value.commit), Deploy)
    case Deploy => if e.ok then (row.(status := Deploying), DeployCommand) else (row, Fail)
    case DeployCommand => (row, if e.ok then Verify else Fail)
    case Verify => (row.(status := Verifying), Health)
    case Health => (row.(health := Passed(e.ok)), if e.ok then Smoke else Fail)
    case Smoke => (row.(smoke := Passed(e.ok)), if e.ok then Conclude else Fail)
    case Conclude =>
      if e.ok then (row.(status := if row.rollbackTo.Some? then RolledBack else Verified), Ended) else (row, Fail)
    case Fail => (row.(status := if row.rollbackTo.Some? then RollbackFailed else Failed), Ended)
    case Ended => (row, Ended)
  }

  // ---------------------------------------------------------------- what every step keeps

  predicate Successful(status: Status) { status.Verified? || status.RolledBack? }

  // A row says only what its run established.
  ghost predicate RowOk(row: Row) {
    && (Successful(row.status) ==> row.health.CheckPassed? && row.smoke.CheckPassed?)
    && (row.artifactCommit.Some? ==> row.artifactCommit.value == row.source)
    && (row.rollbackTo.Some? == row.rollbackOf.Some?)
    && (row.rollbackTo.Some? ==> !row.status.Verified? && !row.status.Building?)
    && (row.rollbackTo.None? ==> !row.status.RolledBack? && !row.status.RollbackFailed?)
  }

  // The status tells which phase the run is in.
  ghost predicate StatusAt(row: Row, pc: Pc) {
    match pc
    case Begin => row.status == Pending
    case Prepare => row.status == Preparing
    case Build => row.status == Preparing
    case BuildCommand => row.status == Building
    case ReadArtifact => row.status in {Preparing, Building}
    case Deploy => row.status in {Preparing, Building}
    case DeployCommand => row.status == Deploying
    case Verify => row.status == Deploying
    case Health => row.status == Verifying
    case Smoke => row.status == Verifying
    case Conclude => row.status == Verifying
    case Fail => Active(row.status)
    case Ended => !Active(row.status)
  }

  // Where the run of a row can be.
  ghost predicate RunOk(row: Row, pc: Pc) {
    && StatusAt(row, pc)
    && (Active(row.status) <==> !pc.Ended?)
    && (row.rollbackTo.Some? ==> !pc.Prepare? && !pc.Build? && !pc.BuildCommand? && !pc.ReadArtifact?)
    && (pc.Smoke? || pc.Conclude? ==> row.health.CheckPassed?)
    && (pc.Conclude? ==> row.smoke.CheckPassed?)
  }

  // What a step never changes; a rollback's artifact is fixed as well.
  ghost predicate SameIdentity(row: Row, row': Row) {
    && row'.key == row.key && row'.source == row.source && row'.branch == row.branch
    && row'.rollbackOf == row.rollbackOf && row'.rollbackTo == row.rollbackTo
    && (row.rollbackTo.Some? ==> row'.artifact == row.artifact && row'.artifactCommit == row.artifactCommit)
  }

  // What one step keeps, and that it comes nearer to the end.
  ghost predicate Keeps(row: Row, pc: Pc, row': Row, pc': Pc) {
    && RowOk(row') && RunOk(row', pc') && SameIdentity(row, row')
    && (!pc.Ended? ==> Ranking(pc') < Ranking(pc))
  }

  lemma {:induction false} BuildStepKeeps(row: Row, pc: Pc, e: Event)
    requires RowOk(row) && RunOk(row, pc)
    requires pc in {Begin, Prepare, Build, BuildCommand, ReadArtifact}
    ensures var (row', pc') := Advance(row, pc, e); Keeps(row, pc, row', pc')
  {
  }

  lemma {:induction false} DeployStepKeeps(row: Row, pc: Pc, e: Event)
    requires RowOk(row) && RunOk(row, pc) && pc in {Deploy, DeployCommand, Verify}
    ensures var (row', pc') := Advance(row, pc, e); Keeps(row, pc, row', pc')
  {
  }

  lemma {:induction false} CheckStepKeeps(row: Row, pc: Pc, e: Event)
    requires RowOk(row) && RunOk(row, pc) && pc in {Health, Smoke, Conclude, Fail, Ended}
    ensures var (row', pc') := Advance(row, pc, e); Keeps(row, pc, row', pc')
  {
  }

  lemma {:induction false} AdvanceKeeps(row: Row, pc: Pc, e: Event)
    requires RowOk(row) && RunOk(row, pc)
    ensures var (row', pc') := Advance(row, pc, e); Keeps(row, pc, row', pc')
  {
    if pc in {Begin, Prepare, Build, BuildCommand, ReadArtifact} {
      BuildStepKeeps(row, pc, e);
    } else if pc in {Deploy, DeployCommand, Verify} {
      DeployStepKeeps(row, pc, e);
    } else {
      CheckStepKeeps(row, pc, e);
    }
  }

  // ---------------------------------------------------------------- a whole run

  // The row when the run has ended; events says what each step meets.
  function RunToEnd(row: Row, pc: Pc, events: Pc -> Event): Row
    decreases Ranking(pc)
  {
    if pc.Ended? then row
    else
      var (row', pc') := Advance(row, pc, events(pc));
      assert Ranking(pc') < Ranking(pc);
      RunToEnd(row', pc', events)
  }

  predicate CommitMatches(row: Row, found: Option<Metadata>) {
    found.None? || found.value.commit.None? || found.value.commit.value == row.source
  }

  // What a deploy has to get through before it is checked, and what a rollback has.
  ghost predicate Deploys(row: Row, events: Pc -> Event) {
    && (row.rollbackTo.None? ==>
         && events(Prepare).ok && (events(Build).build ==> events(BuildCommand).ok)
         && NamesNoOther(row, events(ReadArtifact).found))
    && events(Deploy).ok && events(DeployCommand).ok
  }

  // The artifact metadata, if any, does not name a commit other than the row's.
  ghost predicate NamesNoOther(row: Row, found: Option<Metadata>) {
    found != None && found.value.commit != None ==> found.value.commit == Some(row.source)
  }

  ghost predicate Succeeds(row: Row, events: Pc -> Event) {
    Deploys(row, events) && events(Health).ok && events(Smoke).ok && events(Conclude).ok
  }

  // What is recorded of the checks: health once deployed, smoke once healthy.
  ghost predicate Checked(row: Row, r: Row, events: Pc -> Event, deployed: bool) {
    && r.health == (if !deployed then row.health else if events(Health).ok then CheckPassed else CheckFailed)
    && r.smoke == (if !deployed || !events(Health).ok then row.smoke
                   else if events(Smoke).ok then CheckPassed else CheckFailed)
  }

  // From `Deploy` on, deploys and rollbacks are alike.
  lemma {:induction false} DeployPhaseEnds(row: Row, events: Pc -> Event)
    ensures var r := RunToEnd(row, Deploy, events);
      && SameIdentity(row, r) && r.artifact == row.artifact && r.artifactCommit == row.artifactCommit
      && r.status == (if events(Deploy).ok && events(DeployCommand).ok && events(Health).ok && events(Smoke).ok &&
        events(Conclude).ok
                      then (if row.rollbackTo.Some? then RolledBack else Verified)
                      else (if row.rollbackTo.Some? then RollbackFailed else Failed))
      && Checked(row, r, events, events(Deploy).ok && events(DeployCommand).ok)
  {
    var deploying := row.(status := Deploying);
    FailEnds(row, events);
    FailEnds(deploying, events);
    VerifyPhaseEnds(deploying, events);
    assert events(Deploy).ok ==> RunToEnd(row, Deploy, events) == RunToEnd(deploying, DeployCommand, events);
    assert events(DeployCommand).ok ==>
      RunToEnd(deploying, DeployCommand, events) == RunToEnd(deploying, Verify, events);
  }

  lemma {:induction false} VerifyPhaseEnds(row: Row, events: Pc -> Event)
    ensures var r := RunToEnd(row, Verify, events);
      && SameIdentity(row, r) && r.artifact == row.artifact && r.artifactCommit == row.artifactCommit
      && r.status == (if events(Health).ok && events(Smoke).ok && events(Conclude).ok
                      then (if row.rollbackTo.Some? then RolledBack else Verified)
                      else (if row.rollbackTo.Some? then RollbackFailed else Failed))
      && Checked(row, r, events, true)
  {
    var verifying := row.(status := Verifying);
    var healthy := verifying.(health := CheckPassed);
    var smoked := healthy.(smoke := CheckPassed);
    FailEnds(verifying.(health := CheckFailed), events);
    FailEnds(healthy.(smoke := CheckFailed), events);
    FailEnds(smoked, events);
    assert RunToEnd(row, Verify, events) == RunToEnd(verifying, Health, events);
    assert events(Health).ok ==> RunToEnd(verifying, Health, events) == RunToEnd(healthy, Smoke, events);
    assert events(Smoke).ok ==> RunToEnd(healthy, Smoke, events) == RunToEnd(smoked, Conclude, events);
  }

  lemma {:induction false} FailEnds(row: Row, events: Pc -> Event)
    ensures RunToEnd(row, Fail, events) == row.(status := if row.rollbackTo.Some? then RollbackFailed else Failed)
  {
  }

  // MAIN: a run that is not cut short ends in a terminal status, the successful one exactly when
  // every step of it succeeds; it records the checks it came to, passed or failed, and what the row is a
  // deployment of never changes.
  lemma {:induction false} RunEnds(row: Row, events: Pc -> Event)
    requires RowOk(row) && row.status.Pending?
    ensures var r := RunToEnd(row, Begin, events);
      && !Active(r.status) && RowOk(r) && SameIdentity(row, r)
      && (Successful(r.status) <==> Succeeds(row, events))
      && Checked(row, r, events, Deploys(row, events))
  {
    EndKeeps(row, Begin, events);
    var prepared := row.(status := Preparing);
    if row.rollbackTo.Some? {
      DeployPhaseEnds(prepared, events);
      assert RunToEnd(row, Begin, events) == RunToEnd(prepared, Deploy, events);
    } else {
      BuildPhaseEnds(prepared, events);
      assert RunToEnd(row, Begin, events) == RunToEnd(prepared, Prepare, events);
    }
  }

  lemma {:induction false} ArtifactPhaseEnds(row: Row, events: Pc -> Event)
    requires row.rollbackTo.None?
    ensures var r := RunToEnd(row, ReadArtifact, events);
      var deployed := NamesNoOther(row, events(ReadArtifact).found) && events(Deploy).ok && events(DeployCommand).ok;
      && r.status == (if deployed && events(Health).ok && events(Smoke).ok && events(Conclude).ok
                      then Verified else Failed)
      && Checked(row, r, events, deployed)
  {
    var (row', pc') := Advance(row, ReadArtifact, events(ReadArtifact));
    assert RunToEnd(row, ReadArtifact, events) == RunToEnd(row', pc', events);
    if pc'.Fail? { FailEnds(row', events); } else { DeployPhaseEnds(row', events); }
  }

  lemma {:induction false} BuildPhaseEnds(row: Row, events: Pc -> Event)
    requires row.rollbackTo.None?
    ensures RunToEnd(row, Prepare, events).status == if Succeeds(row, events) then Verified else Failed
    ensures Checked(row, RunToEnd(row, Prepare, events), events, Deploys(row, events))
  {
    var building := row.(status := Building);
    FailEnds(row, events);
    FailEnds(building, events);
    ArtifactPhaseEnds(row, events);
    ArtifactPhaseEnds(building, events);
    if events(Prepare).ok {
      assert RunToEnd(row, Prepare, events) == RunToEnd(row, Build, events);
      if events(Build).build {
        assert RunToEnd(row, Build, events) == RunToEnd(building, BuildCommand, events);
      }
    }
  }

  lemma {:induction false} EndKeeps(row: Row, pc: Pc, events: Pc -> Event)
    requires RowOk(row) && RunOk(row, pc)
    ensures var r := RunToEnd(row, pc, events);
      !Active(r.status) && RowOk(r) && SameIdentity(row, r)
    decreases Ranking(pc)
  {
    if !pc.Ended? {
      var (row', pc') := Advance(row, pc, events(pc));
      AdvanceKeeps(row, pc, events(pc));
      EndKeeps(row', pc', events);
    }
  }

  // ---------------------------------------------------------------- the service's methods

  // _check_health: a URL, a guard that may refuse it, and a bounded number of attempts.
  method CheckHealth(hasUrl: bool, guardRefuses: bool, attempts: seq<bool>) returns (healthy: bool)
    ensures healthy <==> hasUrl && !guardRefuses && exists i :: 0 <= i < |attempts| && attempts[i]
  {
    if !hasUrl || guardRefuses {
      return false;
    }
    for i := 0 to |attempts|
      invariant forall j :: 0 <= j < i ==> !attempts[j]
    {
      if attempts[i] {
        return true;
      }
    }
    healthy := false;
  }

  class Deployment {
    var row: Row

    constructor (r: Row)
      ensures row == r
    {
      row := r;
    }

    method BuildOnce(events: Pc -> Event) returns (ok: bool)
      modifies this
      ensures RunToEnd(old(row), Build, events) == RunToEnd(row, if ok then Deploy else Fail, events)
      ensures row.rollbackTo == old(row).rollbackTo && row.source == old(row).source
    {
      if events(Build).build {
        row := row.(status := Building);
        if !events(BuildCommand).ok {
          return false;
        }
      }
      match events(ReadArtifact).found
      case None => return true;
      case Some(found) =>
        if found.commit.Some? && found.commit.value != row.source {
          return false;
        }
        row := row.(artifact := found.artifact, artifactCommit := found.commit);
        return true;
    }

    method VerifyHealthAndSmoke(events: Pc -> Event) returns (ok: bool)
      modifies this
      ensures RunToEnd(old(row), Verify, events) == RunToEnd(row, if ok then Conclude else Fail, events)
      ensures row.rollbackTo == old(row).rollbackTo
    {
      row := row.(status := Verifying);
      row := row.(health := Passed(events(Health).ok));
      if !events(Health).ok {
        return false;
      }
      row := row.(smoke := Passed(events(Smoke).ok));
      return events(Smoke).ok;
    }

    // The deploy command and its verification, which _run and _run_rollback share.
    method DeployAndVerify(events: Pc -> Event) returns (ok: bool)
      modifies this
      ensures RunToEnd(old(row), Deploy, events) == RunToEnd(row, if ok then Conclude else Fail, events)
      ensures row.rollbackTo == old(row).rollbackTo
    {
      if !events(Deploy).ok {
        return false;
      }
      row := row.(status := Deploying);
      if !events(DeployCommand).ok {
        return false;
      }
      ok := VerifyHealthAndSmoke(events);
    }

    // _run
    method Run(events: Pc -> Event)
      requires row.rollbackTo.None?
      modifies this
      ensures row == RunToEnd(old(row), Begin, events)
    {
      row := row.(status := Preparing);
      assert RunToEnd(old(row), Begin, events) == RunToEnd(row, Prepare, events);
      var ok := events(Prepare).ok;
      if ok {
        ok := BuildOnce(events);
      }
      if ok {
        ok := DeployAndVerify(events);
      }
      assert RunToEnd(old(row), Begin, events) == RunToEnd(row, if ok then Conclude else Fail, events);
      FailEnds(row, events);
      row := row.(status := if ok && events(Conclude).ok then Verified else Failed);
    }

    // _run_rollback
    method RunRollback(events: Pc -> Event)
      requires row.rollbackTo.Some?
      modifies this
      ensures row == RunToEnd(old(row), Begin, events)
    {
      row := row.(status := Preparing);
      var ok := DeployAndVerify(events);
      FailEnds(row, events);
      row := row.(status := if ok && events(Conclude).ok then RolledBack else RollbackFailed);
    }
  }
}
