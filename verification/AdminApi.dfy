/** The admin endpoints as transactions that change the tables in place
    (backend/app/routers/admin_teams.py, admin_roles.py and admin.py), each proved to do what
    AdminStore says of it. */
module AdminApi {
  import opened AdminStore
  import Permissions
  import Slug

  /** scalar_one_or_none() */
  datatype Lookup = NoRow | Row(id: nat) | Several

  function ScalarOneOrNone(ids: set<nat>): (found: Lookup)
    ensures found == NoRow <==> ids == {}
    ensures found.Row? ==> ids == {found.id}
    ensures found == Several <==> |ids| > 1
  {
    if |ids| > 1 then Several
    else if ids == {} then NoRow
    else
      OneWhenNotEmpty(ids);
      Row(Only(ids))
  }

  lemma OneWhenNotEmpty(ids: set<nat>)
    requires ids != {} && |ids| <= 1
    ensures |ids| == 1
  {
  }

  class DbSession {
    const cfg: Config
    var roles: map<nat, Role>
    var teams: map<nat, Team>
    var members: map<nat, Membership>
    var bindings: map<nat, Binding>
    var assignments: map<nat, Assignment>
    var nextId: nat

    constructor (cfg: Config, db: Db)
      ensures View() == db && this.cfg == cfg
    {
      this.cfg := cfg;
      roles, teams, members, bindings, assignments, nextId :=
        db.roles, db.teams, db.members, db.bindings, db.assignments, db.nextId;
    }

    function View(): Db
      reads this
    {
      Db(roles, teams, members, bindings, assignments, nextId)
    }

    method NewId() returns (id: nat)
      modifies this`nextId
      ensures id == old(nextId) && nextId == id + 1
    {
      id := nextId;
      nextId := nextId + 1;
    }

    /** get_session rolls back when an endpoint raises. */
    method Rollback(before: Db)
      modifies this
      ensures View() == before
    {
      roles, teams, members, bindings, assignments, nextId :=
        before.roles, before.teams, before.members, before.bindings, before.assignments, before.nextId;
    }

    // --- flushing one new row: its constraints let it in or refuse it -------------

    method FlushTeam(team: Team) returns (outcome: Outcome)
      modifies this
      ensures (View(), outcome) == InsertTeam(old(View()), team)
    {
      if TeamsLike(View(), team.name, team.slug) != {} {
        return Violation;
      }
      var id := NewId();
      teams := teams[id := team];
      outcome := Done(id);
    }

    method FlushMember(row: Membership) returns (outcome: Outcome)
      modifies this
      ensures (View(), outcome) == InsertMember(old(View()), row)
    {
      if row.teamId !in teams || MembersOf(View(), row.teamId, row.user) != {} {
        return Violation;
      }
      var id := NewId();
      members := members[id := row];
      outcome := Done(id);
    }

    method FlushBinding(row: Binding) returns (outcome: Outcome)
      modifies this
      ensures (View(), outcome) == InsertBinding(old(View()), row)
    {
      if row.teamId !in teams || row.roleId !in roles || BindingsOf(View(), row.teamId, row.roleId) != {} {
        return Violation;
      }
      var id := NewId();
      bindings := bindings[id := row];
      outcome := Done(id);
    }

    method FlushRole(role: Role) returns (outcome: Outcome)
      modifies this
      ensures (View(), outcome) == InsertRole(old(View()), role)
    {
      if RolesNamed(View(), role.name) != {} {
        return Violation;
      }
      var id := NewId();
      roles := roles[id := role];
      outcome := Done(id);
    }

    method FlushAssignment(row: Assignment) returns (outcome: Outcome)
      modifies this
      ensures (View(), outcome) == InsertAssignment(old(View()), row)
    {
      hide ScopeFits, SameKey;
      if !ScopeFits(row.scopeType, row.scopeValue) || row.roleId !in roles
         || exists i :: i in assignments && SameKey(assignments[i], row) {
        return Violation;
      }
      var id := NewId();
      assignments := assignments[id := row];
      outcome := Done(id);
    }

    // --- admin_teams.py ---------------------------------------------------------

    method PostTeam(name: string, info: TeamInfo) returns (outcome: Outcome)
      modifies this
      ensures (View(), outcome) == CreateTeam(cfg, old(View()), name, info)
    {
      hide Slug.Slugify;
      var slug := Slug.Slugify(cfg.lower, name);
      var existing := ScalarOneOrNone(TeamsLike(View(), name, slug));
      if existing == Several {
        return ManyRows;
      }
      if existing.Row? {
        return Conflict;
      }
      outcome := FlushTeam(Team(name, slug, info));
    }

    method PatchTeam(id: nat, change: TeamChange) returns (outcome: Outcome)
      modifies this
      ensures (View(), outcome) == UpdateTeam(cfg, old(View()), id, change)
    {
      hide Slug.Slugify;
      if id !in teams {
        return NotFound;
      }
      var team := teams[id];
      if change.name.Some? {
        var slug := Slug.Slugify(cfg.lower, change.name.value);
        var others := ScalarOneOrNone(TeamsLike(View(), change.name.value, slug) - {id});
        if others == Several {
          return ManyRows;
        }
        if others.Row? {
          return Conflict;
        }
        team := team.(name := change.name.value);
        team := team.(slug := slug);
      }
      if change.description.Some? {
        team := team.(info := team.info.(description := change.description));
      }
      if change.githubOrg.Some? {
        team := team.(info := team.info.(githubOrg := change.githubOrg));
      }
      if change.githubTeamSlug.Some? {
        team := team.(info := team.info.(githubTeamSlug := change.githubTeamSlug));
      }
      if change.autoSync.Some? {
        team := team.(info := team.info.(autoSync := change.autoSync.value));
      }
      if TeamsLike(View(), team.name, team.slug) - {id} != {} {
        return Violation;
      }
      teams := teams[id := team];
      outcome := Done(id);
    }

    method RemoveTeam(id: nat) returns (outcome: Outcome)
      modifies this
      ensures (View(), outcome) == DeleteTeam(old(View()), id)
    {
      if id !in teams {
        return NotFound;
      }
      members := map m | m in members && members[m].teamId != id :: members[m];
      bindings := map b | b in bindings && bindings[b].teamId != id :: bindings[b];
      teams := teams - {id};
      outcome := Done(id);
    }

    method PostMember(teamId: nat, user: string) returns (outcome: Outcome)
      modifies this
      ensures (View(), outcome) == AddMember(old(View()), teamId, user)
    {
      if teamId !in teams {
        return NotFound;
      }
      var existing := ScalarOneOrNone(MembersOf(View(), teamId, user));
      if existing == Several {
        return ManyRows;
      }
      if existing.Row? {
        return Conflict;
      }
      outcome := FlushMember(Membership(teamId, user));
    }

    method DropMember(teamId: nat, user: string) returns (outcome: Outcome)
      modifies this
      ensures (View(), outcome) == RemoveMember(old(View()), teamId, user)
    {
      var membership := ScalarOneOrNone(MembersOf(View(), teamId, user));
      if membership == Several {
        return ManyRows;
      }
      if membership == NoRow {
        return NotFound;
      }
      members := members - {membership.id};
      outcome := Done(teamId);
    }

    method PostTeamRole(teamId: nat, roleId: nat, orgSlug: Option<string>) returns (outcome: Outcome)
      modifies this
      ensures (View(), outcome) == AssignTeamRole(old(View()), teamId, roleId, orgSlug)
    {
      if teamId !in teams {
        return NotFound;
      }
      if roleId !in roles {
        return NotFound;
      }
      var existing := ScalarOneOrNone(BindingsOf(View(), teamId, roleId));
      if existing == Several {
        return ManyRows;
      }
      if existing.Row? {
        return Conflict;
      }
      outcome := FlushBinding(Binding(teamId, roleId, orgSlug));
    }

    method DropTeamRole(teamId: nat, roleId: nat) returns (outcome: Outcome)
      modifies this
      ensures (View(), outcome) == RemoveTeamRole(old(View()), teamId, roleId)
    {
      var binding := ScalarOneOrNone(BindingsOf(View(), teamId, roleId));
      if binding == Several {
        return ManyRows;
      }
      if binding == NoRow {
        return NotFound;
      }
      bindings := bindings - {binding.id};
      outcome := Done(teamId);
    }

    // --- admin_roles.py ---------------------------------------------------------

    method PostRole(name: string, displayName: string, description: Option<string>, permissions: seq<string>)
      returns (outcome: Outcome)
      modifies this
      ensures (View(), outcome) == CreateRole(cfg, old(View()), name, displayName, description, permissions)
    {
      hide Permissions.Outcome;
      if name in cfg.reserved {
        return Conflict;
      }
      var existing := ScalarOneOrNone(RolesNamed(View(), name));
      if existing == Several {
        return ManyRows;
      }
      if existing.Row? {
        return Conflict;
      }
      var validation := Permissions.ValidatePermissions(cfg.catalog, permissions);
      if validation.Invalid? {
        return Unprocessable(validation.errors);
      }
      outcome := FlushRole(Role(name, displayName, description, validation.perms, false));
    }

    method PatchRole(id: nat, change: RoleChange) returns (outcome: Outcome)
      modifies this
      ensures (View(), outcome) == UpdateRole(cfg, old(View()), id, change)
    {
      hide Permissions.Outcome;
      if id !in roles {
        return NotFound;
      }
      var role := roles[id];
      if role.isSystem {
        return Forbidden;
      }
      if change.displayName.Some? {
        role := role.(displayName := change.displayName.value);
      }
      if change.description.Some? {
        role := role.(description := change.description);
      }
      if change.permissions.Some? {
        var validation := Permissions.ValidatePermissions(cfg.catalog, change.permissions.value);
        if validation.Invalid? {
          return Unprocessable(validation.errors);
        }
        role := role.(permissions := validation.perms);
      }
      roles := roles[id := role];
      outcome := Done(id);
    }

    /** Deactivates the role's assignments one by one, then deletes the role: the flush fails,
        and the deactivations roll back, whenever there was one or an inactive assignment. */
    method RemoveRole(id: nat) returns (outcome: Outcome)
      modifies this
      ensures (View(), outcome) == DeleteRole(old(View()), id)
    {
      if id !in roles {
        return NotFound;
      }
      if roles[id].isSystem {
        return Forbidden;
      }
      var start := View();
      var before := assignments;
      var pending := set a | a in assignments && assignments[a].roleId == id && assignments[a].active;
      while pending != {}
        invariant pending <= before.Keys
        invariant roles == old(roles) && teams == old(teams) && members == old(members)
        invariant bindings == old(bindings) && nextId == old(nextId)
        invariant assignments.Keys == before.Keys
        invariant forall a :: a in before ==> assignments[a].roleId == before[a].roleId
        invariant forall a :: a in before && before[a].roleId != id ==> assignments[a] == before[a]
        decreases pending
      {
        var a :| a in pending;
        assignments := assignments[a := assignments[a].(active := false)];
        pending := pending - {a};
      }
      if exists a :: a in assignments && assignments[a].roleId == id {
        ghost var a :| a in assignments && assignments[a].roleId == id;
        assert a in AssignmentsOfRole(old(View()), id);
        Rollback(start);
        return Violation;
      }
      assert AssignmentsOfRole(old(View()), id) == {};
      assert assignments == before;
      roles := roles - {id};
      bindings := map b | b in bindings && bindings[b].roleId != id :: bindings[b];
      outcome := Done(id);
    }

    // --- admin.py ---------------------------------------------------------------

    method PostAssignment(login: string, roleName: string, scopeType: ScopeType, scopeValue: Option<string>)
      returns (outcome: Outcome)
      modifies this
      ensures (View(), outcome) == CreateAssignment(old(View()), login, roleName, scopeType, scopeValue)
    {
      hide ScopeFits, SameKey;
      var role := ScalarOneOrNone(RolesNamed(View(), roleName));
      if role == Several {
        return ManyRows;
      }
      if role == NoRow {
        return NotFound;
      }
      var existing := ScalarOneOrNone(AssignmentsLike(View(), login, role.id, scopeType));
      if existing == Several {
        return ManyRows;
      }
      if existing.Row? {
        return Conflict;
      }
      outcome := FlushAssignment(Assignment(login, role.id, scopeType, scopeValue, true));
    }

    method DropAssignment(id: nat) returns (outcome: Outcome)
      modifies this
      ensures (View(), outcome) == DeleteAssignment(old(View()), id)
    {
      if id !in assignments {
        return NotFound;
      }
      assignments := assignments - {id};
      outcome := Done(id);
    }

    // --- the service ------------------------------------------------------------

    method Handle(r: Request) returns (outcome: Outcome)
      modifies this
      ensures (View(), outcome) == Serve(cfg, old(View()), r)
      ensures !outcome.Done? ==> View() == old(View())
    {
      hide CreateTeam, UpdateTeam, DeleteTeam, AddMember, RemoveMember, AssignTeamRole, RemoveTeamRole, CreateRole,
           UpdateRole, DeleteRole, CreateAssignment, DeleteAssignment;
      FailureRollsBack(cfg, View(), r);
      match r {
        case ReqCreateTeam(name, info) => outcome := PostTeam(name, info);
        case ReqUpdateTeam(id, change) => outcome := PatchTeam(id, change);
        case ReqDeleteTeam(id) => outcome := RemoveTeam(id);
        case ReqAddMember(t, u) => outcome := PostMember(t, u);
        case ReqRemoveMember(t, u) => outcome := DropMember(t, u);
        case ReqAssignTeamRole(t, role, o) => outcome := PostTeamRole(t, role, o);
        case ReqRemoveTeamRole(t, role) => outcome := DropTeamRole(t, role);
        case ReqCreateRole(n, d, e, p) => outcome := PostRole(n, d, e, p);
        case ReqUpdateRole(id, change) => outcome := PatchRole(id, change);
        case ReqDeleteRole(id) => outcome := RemoveRole(id);
        case ReqCreateAssignment(l, n, t, v) => outcome := PostAssignment(l, n, t, v);
        case ReqDeleteAssignment(id) => outcome := DropAssignment(id);
      }
    }

    /** A deployment serving its requests one after the other, from its first on: the tables end
        as promised, the system roles as they were, and no request fails on a lookup for one row. */
    method ServeAll(requests: seq<Request>) returns (outcomes: seq<Outcome>)
      requires Init(View())
      modifies this
      ensures AsPromised(cfg, View()) && SystemRoles(View()) == SystemRoles(old(View()))
      ensures |outcomes| == |requests| && ManyRows !in outcomes
      ensures View() == Run(cfg, old(View()), requests)
    {
      hide Core, GrantsUnique, Serve, Run, SystemRoles, AsPromised;
      ghost var start := View();
      InitInv(cfg, start);
      outcomes := [];
      for i := 0 to |requests|
        invariant |outcomes| == i && ManyRows !in outcomes
        invariant Inv(cfg, View()) && SystemRoles(View()) == SystemRoles(start)
        invariant Run(cfg, View(), requests[i..]) == Run(cfg, start, requests)
      {
        ServeKeepsInv(cfg, View(), requests[i]);
        ServeKeepsSystemRoles(cfg, View(), requests[i]);
        RunNext(cfg, View(), requests[i..]);
        var outcome := Handle(requests[i]);
        outcomes := outcomes + [outcome];
      }
      InvIsPromised(cfg, View());
      RunNone(cfg, View());
    }
  }

  lemma RunNext(cfg: Config, db: Db, requests: seq<Request>)
    requires requests != []
    ensures Run(cfg, db, requests) == Run(cfg, Serve(cfg, db, requests[0]).0, requests[1..])
  {
    hide Serve;
  }

  lemma RunNone(cfg: Config, db: Db)
    ensures Run(cfg, db, []) == db
  {
  }
}
