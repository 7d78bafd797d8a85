/**
 Who may see a Task: the per-Task resolver, the batched query of the list pages, and the per-id read
 guard (app/services/authz_service.py and require_read_role in app/main.py).
 */
module Authorization {
  import opened Wrappers

  datatype Role = Viewer | Member | Admin | Owner

  function Level(role: Role): nat {
    match role case Viewer => 0 case Member => 1 case Admin => 2 case Owner => 3
  }

  // Row ids start at 1, so an id read from a column is never falsy.
  type Id = i: int | i >= 1 witness 1

  datatype TaskRow = TaskRow(scope: Option<Id>, change: Option<Id>)
  datatype Workspace = Workspace(task: Option<Id>, repository: Option<Id>)

  // The organization of every repository, the repository of every Change, and so on; no reference
  // between tables need hold.
  datatype Database = Database(
    repositories: map<Id, Option<Id>>, changes: map<Id, Option<Id>>, tasks: map<Id, TaskRow>,
    workspaces: seq<Workspace>, members: map<(Id, Id), Role>)

  // ---------------------------------------------------------------- the resolver of one Task

  function Only(id: Option<Id>): set<Id> { if id.Some? then {id.value} else {} }

  function ChangeRepository(db: Database, change: Option<Id>): Option<Id> {
    if change.Some? && change.value in db.changes then db.changes[change.value] else None
  }

  function WorkspaceRepositories(db: Database, t: Id): set<Id> {
    set w | w in db.workspaces && w.task == Some(t) && w.repository.Some? :: w.repository.value
  }

  function TaskRepositories(db: Database, t: Id): set<Id> {
    if t !in db.tasks then {}
    else Only(db.tasks[t].scope) + Only(ChangeRepository(db, db.tasks[t].change)) + WorkspaceRepositories(db, t)
  }

  // _repo_ids_for_task
  method RepoIdsForTask(db: Database, t: Id) returns (ids: set<Id>)
    ensures ids == TaskRepositories(db, t)
  {
    ids := {};
    if t !in db.tasks {
      return;
    }
    var row := db.tasks[t];
    var project := ChangeRepository(db, row.change);
    if row.scope.Some? {
      ids := ids + {row.scope.value};
    }
    if project.Some? {
      ids := ids + {project.value};
    }
    ghost var direct := ids;
    for i := 0 to |db.workspaces|
      invariant ids == direct + set j | 0 <= j < i && db.workspaces[j].task == Some(t) &&
        db.workspaces[j].repository.Some? :: db.workspaces[j].repository.value
    {
      var w := db.workspaces[i];
      if w.task == Some(t) && w.repository.Some? {
        ids := ids + {w.repository.value};
      }
    }
  }

  // A Task belongs to a repository by its own scope, by its Change, or by one of its workspaces.
  ghost predicate Belongs(db: Database, t: Id, r: Id) {
    && t in db.tasks
    && (|| db.tasks[t].scope == Some(r)
        || (exists c: Id :: db.tasks[t].change == Some(c) && c in db.changes && db.changes[c] == Some(r))
        || Workspace(Some(t), Some(r)) in db.workspaces)
  }

  // The resolver finds exactly the repositories the Task belongs to.
  lemma RepositoriesExactly(db: Database, t: Id, r: Id)
    ensures r in TaskRepositories(db, t) <==> Belongs(db, t, r)
  {
    if t in db.tasks {
      var change := db.tasks[t].change;
      assert r in Only(ChangeRepository(db, change)) <==>
        change.Some? && change.value in db.changes && db.changes[change.value] == Some(r);
      if r in WorkspaceRepositories(db, t) {
        var w :| w in db.workspaces && w.task == Some(t) && w.repository == Some(r);
        assert w == Workspace(Some(t), Some(r));
      }
    }
  }

  // ---------------------------------------------------------------- the batched queries

  function VisibleRepositories(db: Database, user: Id): set<Id> {
    set r | r in db.repositories && db.repositories[r].Some? && (db.repositories[r].value, user) in db.members
  }

  // One row of tasks LEFT JOIN changes LEFT JOIN agent_workspaces; an outer row has None.
  datatype JoinRow = JoinRow(scope: Option<Id>, project: Option<Id>, repository: Option<Id>)

  function WorkspaceColumn(db: Database, t: Id, k: nat): seq<Option<Id>>
    requires k <= |db.workspaces|
  {
    if k == 0 then []
    else
      var before := WorkspaceColumn(db, t, k - 1);
      if db.workspaces[k - 1].task == Some(t) then before + [db.workspaces[k - 1].repository] else before
  }

  function JoinRows(db: Database, t: Id): seq<JoinRow>
    requires t in db.tasks
  {
    var found := WorkspaceColumn(db, t, |db.workspaces|);
    var column := if found == [] then [None] else found;
    seq(|column|, i requires 0 <= i < |column| => JoinRow(db.tasks[t].scope, ChangeRepository(db, db.tasks[t].change),
      column[i]))
  }

  // column IN (ids), which NULL never satisfies.
  predicate In(column: Option<Id>, ids: set<Id>) { column.Some? && column.value in ids }

  predicate RowMatches(row: JoinRow, ids: set<Id>) {
    In(row.scope, ids) || In(row.project, ids) || In(row.repository, ids)
  }

  predicate SomeRowMatches(db: Database, t: Id, ids: set<Id>)
    requires t in db.tasks
  {
    exists i :: 0 <= i < |JoinRows(db, t)| && RowMatches(JoinRows(db, t)[i], ids)
  }

  // visible_task_ids
  function VisibleTasks(db: Database, user: Id): set<Id> {
    var ids := VisibleRepositories(db, user);
    if ids == {} then {} else set t | t in db.tasks && SomeRowMatches(db, t, ids)
  }

  lemma {:induction false} ColumnIsWorkspaces(db: Database, t: Id, k: nat)
    requires k <= |db.workspaces|
    ensures forall r :: r in WorkspaceColumn(db, t, k) <==>
      exists i :: 0 <= i < k && db.workspaces[i] == Workspace(Some(t), r)
  {
    if k > 0 {
      ColumnIsWorkspaces(db, t, k - 1);
      assert forall r :: db.workspaces[k - 1] == Workspace(Some(t), r) <==>
        db.workspaces[k - 1].task == Some(t) && db.workspaces[k - 1].repository == r;
    }
  }

  lemma MatchedRowIsResolved(db: Database, t: Id, ids: set<Id>, i: nat)
    requires t in db.tasks && i < |JoinRows(db, t)| && RowMatches(JoinRows(db, t)[i], ids)
    ensures TaskRepositories(db, t) * ids != {}
  {
    var row, column := JoinRows(db, t)[i], WorkspaceColumn(db, t, |db.workspaces|);
    ColumnIsWorkspaces(db, t, |db.workspaces|);
    if In(row.scope, ids) {
      assert row.scope.value in TaskRepositories(db, t) * ids;
    } else if In(row.project, ids) {
      assert row.project.value in TaskRepositories(db, t) * ids;
    } else {
      assert column != [] && row.repository == column[i];
      assert row.repository in column;
      assert row.repository.value in WorkspaceRepositories(db, t);
      assert row.repository.value in TaskRepositories(db, t) * ids;
    }
  }

  lemma ResolvedRowMatches(db: Database, t: Id, ids: set<Id>, r: Id)
    requires t in db.tasks && r in TaskRepositories(db, t) && r in ids
    ensures SomeRowMatches(db, t, ids)
  {
    var rows, column := JoinRows(db, t), WorkspaceColumn(db, t, |db.workspaces|);
    if r in WorkspaceRepositories(db, t) {
      var w :| w in db.workspaces && w.task == Some(t) && w.repository == Some(r);
      ColumnIsWorkspaces(db, t, |db.workspaces|);
      assert w == Workspace(Some(t), Some(r));
      assert Some(r) in column;
      var i :| 0 <= i < |column| && column[i] == Some(r);
      assert rows[i].repository == Some(r);
      assert RowMatches(rows[i], ids);
    } else {
      assert RowMatches(rows[0], ids);
    }
  }

  // Some repository of the Task is among the ids exactly when one of its join rows matches.
  lemma JoinMatchesResolver(db: Database, t: Id, ids: set<Id>)
    requires t in db.tasks
    ensures SomeRowMatches(db, t, ids) <==> TaskRepositories(db, t) * ids != {}
  {
    if SomeRowMatches(db, t, ids) {
      var i :| 0 <= i < |JoinRows(db, t)| && RowMatches(JoinRows(db, t)[i], ids);
      MatchedRowIsResolved(db, t, ids, i);
    }
    if r :| r in TaskRepositories(db, t) * ids { ResolvedRowMatches(db, t, ids, r); }
  }

  lemma BatchedMeetsResolver(db: Database, user: Id, t: Id)
    ensures t in VisibleTasks(db, user) <==> TaskRepositories(db, t) * VisibleRepositories(db, user) != {}
  {
    if t in db.tasks { JoinMatchesResolver(db, t, VisibleRepositories(db, user)); }
  }

  // The Task belongs to a repository of the organization.
  ghost predicate InOrganization(db: Database, t: Id, org: Id) {
    exists r: Id :: Belongs(db, t, r) && r in db.repositories && db.repositories[r] == Some(org)
  }

  // MAIN: for every database the batched query lists exactly the Tasks that belong, in one of the three
  // ways, to a repository of an organization the user is a member of; so it agrees with the resolver.
  lemma VisibleExactly(db: Database, user: Id, t: Id)
    ensures t in VisibleTasks(db, user) <==> exists org: Id :: InOrganization(db, t, org) && (org, user) in db.members
    ensures t in VisibleTasks(db, user) <==> TaskRepositories(db, t) * VisibleRepositories(db, user) != {}
  {
    BatchedMeetsResolver(db, user, t);
    if r :| r in TaskRepositories(db, t) * VisibleRepositories(db, user) {
      RepositoriesExactly(db, t, r);
      assert InOrganization(db, t, db.repositories[r].value);
    }
    if org: Id :| InOrganization(db, t, org) && (org, user) in db.members {
      var r: Id :| Belongs(db, t, r) && r in db.repositories && db.repositories[r] == Some(org);
      RepositoriesExactly(db, t, r);
      assert r in TaskRepositories(db, t) * VisibleRepositories(db, user);
    }
  }

  // ---------------------------------------------------------------- the read guard

  // resolve_organization_ids for the repositories of a resource.
  function Organizations(db: Database, repositories: set<Id>): set<Id> {
    set r | r in repositories && r in db.repositories && db.repositories[r].Some? :: db.repositories[r].value
  }

  datatype Decision = Admitted | NotFound | Forbidden

  predicate Holds(db: Database, user: Id, org: Id, least: Role) {
    (org, user) in db.members && Level(db.members[(org, user)]) >= Level(least)
  }

  // The roles that are as much as this one.
  ghost function AtLeast(least: Role): set<Role> {
    match least
    case Viewer => {Viewer, Member, Admin, Owner}
    case Member => {Member, Admin, Owner}
    case Admin => {Admin, Owner}
    case Owner => {Owner}
  }

  lemma LevelsExactly(role: Role, least: Role)
    ensures Level(role) >= Level(least) <==> role in AtLeast(least)
  {
  }

  // The organizations all have the user in the role or above, and there is one.
  ghost predicate Admits(db: Database, user: Id, repositories: set<Id>, least: Role) {
    var orgs := Organizations(db, repositories);
    orgs != {} && forall org :: org in orgs ==> Holds(db, user, org, least)
  }

  // require_read_role for a resource with these repositories; the organizations come in any order,
  // so a resource that fails in two ways is refused in either.
  method RequireReadRole(db: Database, user: Id, repositories: set<Id>, least: Role) returns (d: Decision)
    ensures d.Admitted? <==> Admits(db, user, repositories, least)
    ensures d.NotFound? ==> var orgs := Organizations(db, repositories);
      orgs == {} || exists org :: org in orgs && (org, user) !in db.members
    ensures d.Forbidden? ==>
      exists org :: org in Organizations(db, repositories) && (org, user) in db.members && !Holds(db, user, org, least)
  {
    var orgs := Organizations(db, repositories);
    if orgs == {} {
      return NotFound;
    }
    var rest := orgs;
    while rest != {}
      invariant rest <= orgs && forall org :: org in orgs && org !in rest ==> Holds(db, user, org, least)
    {
      var org :| org in rest;
      if (org, user) !in db.members {
        return NotFound;
      }
      if Level(db.members[(org, user)]) < Level(least) {
        return Forbidden;
      }
      rest := rest - {org};
    }
    d := Admitted;
  }

  lemma OrganizationsExactly(db: Database, t: Id, org: Id)
    ensures org in Organizations(db, TaskRepositories(db, t)) <==> InOrganization(db, t, org)
  {
    if org in Organizations(db, TaskRepositories(db, t)) {
      var r :| r in TaskRepositories(db, t) && r in db.repositories && db.repositories[r] == Some(org);
      RepositoriesExactly(db, t, r);
    }
    if r: Id :| Belongs(db, t, r) && r in db.repositories && db.repositories[r] == Some(org) {
      RepositoriesExactly(db, t, r);
    }
  }

  // MAIN: the guard admits a user to a Task if and only if the Task is in some organization and the user has
  // the role asked for, or more, in every organization it is in.
  lemma AdmitsExactly(db: Database, user: Id, t: Id, least: Role)
    ensures Admits(db, user, TaskRepositories(db, t), least) <==>
      && (exists org: Id :: InOrganization(db, t, org))
      && forall org: Id :: InOrganization(db, t, org) ==>
        (org, user) in db.members && db.members[(org, user)] in AtLeast(least)
  {
    forall org: Id ensures org in Organizations(db, TaskRepositories(db, t)) <==> InOrganization(db, t, org) {
      OrganizationsExactly(db, t, org);
    }
    forall org: Id | (org, user) in db.members
      ensures Holds(db, user, org, least) <==> db.members[(org, user)] in AtLeast(least)
    {
      LevelsExactly(db.members[(org, user)], least);
    }
    var orgs := Organizations(db, TaskRepositories(db, t));
    if orgs != {} { var org :| org in orgs; }
  }

  // The user is a member of some organization of the resource exactly when the user sees one of its
  // repositories.
  lemma MemberSeesOne(db: Database, user: Id, repositories: set<Id>)
    ensures repositories * VisibleRepositories(db, user) != {} <==>
      exists org :: org in Organizations(db, repositories) && (org, user) in db.members
  {
    if org :| org in Organizations(db, repositories) && (org, user) in db.members {
      var r :| r in repositories && r in db.repositories && db.repositories[r] == Some(org);
      assert r in repositories * VisibleRepositories(db, user);
    }
    forall r | r in repositories * VisibleRepositories(db, user)
      ensures exists org :: org in Organizations(db, repositories) && (org, user) in db.members
    {
      assert db.repositories[r].value in Organizations(db, repositories);
    }
  }

  // MAIN: a Task the guard admits, whatever the role it asks for, is in the visible list.
  lemma AdmittedIsVisible(db: Database, user: Id, t: Id, least: Role)
    requires Admits(db, user, TaskRepositories(db, t), least)
    ensures t in VisibleTasks(db, user)
  {
    BatchedMeetsResolver(db, user, t);
    MemberSeesOne(db, user, TaskRepositories(db, t));
    var org :| org in Organizations(db, TaskRepositories(db, t));
    assert Holds(db, user, org, least);
  }

  // MAIN: the converse fails exactly for a visible Task that also belongs to an organization the user
  // is no member of.
  lemma VisibleButRefused(db: Database, user: Id, t: Id)
    ensures t in VisibleTasks(db, user) && !Admits(db, user, TaskRepositories(db, t), Viewer) <==>
      && (exists org: Id :: InOrganization(db, t, org) && (org, user) in db.members)
      && exists org: Id :: InOrganization(db, t, org) && (org, user) !in db.members
  {
    VisibleExactly(db, user, t);
    AdmitsExactly(db, user, t, Viewer);
    forall role: Role ensures role in AtLeast(Viewer) { LevelsExactly(role, Viewer); }
  }

  // For a repository, list and guard agree for every user.
  lemma RepositoryGuardIsExact(db: Database, user: Id, r: Id)
    ensures r in VisibleRepositories(db, user) <==> Admits(db, user, {r}, Viewer)
    ensures r in VisibleRepositories(db, user) <==>
      exists org: Id :: r in db.repositories && db.repositories[r] == Some(org) && (org, user) in db.members
  {
    MemberSeesOne(db, user, {r});
    if r in VisibleRepositories(db, user) {
      assert r in {r} * VisibleRepositories(db, user);
      assert Organizations(db, {r}) == {db.repositories[r].value};
    }
    if Admits(db, user, {r}, Viewer) {
      var org :| org in Organizations(db, {r});
      assert Holds(db, user, org, Viewer);
      assert db.repositories[r] == Some(org);
    }
  }

  // A Task in two organizations is listed for a member of one of them and refused to that member.
  lemma TwoOrganizations(user: Id)
    ensures
      var db := Database(map[1 := Some(7), 2 := Some(8)], map[], map[5 := TaskRow(Some(1), None)],
        [Workspace(Some(5), Some(2))], map[(7, user) := Owner]);
      5 in VisibleTasks(db, user) && !Admits(db, user, TaskRepositories(db, 5), Viewer)
  {
    var db := Database(map[1 := Some(7), 2 := Some(8)], map[], map[5 := TaskRow(Some(1), None)],
      [Workspace(Some(5), Some(2))], map[(7, user) := Owner]);
    assert Belongs(db, 5, 1);
    assert db.workspaces[0] in db.workspaces;
    assert Belongs(db, 5, 2);
    assert InOrganization(db, 5, 7) && InOrganization(db, 5, 8);
    VisibleButRefused(db, user, 5);
  }
}
