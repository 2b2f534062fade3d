/** The teams, roles and assignments store behind the admin routers
    (backend/app/routers/admin_teams.py, admin_roles.py and admin.py). Each endpoint is one
    transaction over five tables: it either commits or leaves the tables as they were. */
module AdminStore {
  import Permissions
  import Slug

  datatype Option<T> = None | Some(value: T)

  datatype Role = Role(
    name: string, displayName: string, description: Option<string>, permissions: seq<string>, isSystem: bool)

  datatype TeamInfo = TeamInfo(
    description: Option<string>, githubOrg: Option<string>, githubTeamSlug: Option<string>, autoSync: bool)

  datatype Team = Team(name: string, slug: string, info: TeamInfo)

  datatype Membership = Membership(teamId: nat, user: string)

  datatype Binding = Binding(teamId: nat, roleId: nat, orgSlug: Option<string>)

  datatype ScopeType = Global | Org | Repo

  datatype Assignment = Assignment(
    login: string, roleId: nat, scopeType: ScopeType, scopeValue: Option<string>, active: bool)

  /** The tables, by primary key. One counter stands for the id sequences. */
  datatype Db = Db(
    roles: map<nat, Role>,
    teams: map<nat, Team>,
    members: map<nat, Membership>,
    bindings: map<nat, Binding>,
    assignments: map<nat, Assignment>,
    nextId: nat)

  datatype Config = Config(lower: string -> string, catalog: Permissions.Catalog, reserved: set<string>)

  /** How a request ends: Done commits; the rest roll back. ManyRows is a lookup for at most one
      row that found several, Violation a constraint that fired. */
  datatype Outcome =
    | Done(id: nat)
    | NotFound | Conflict | Forbidden
    | Unprocessable(errors: seq<Permissions.PermissionError>)
    | ManyRows | Violation

  type Result = (Db, Outcome)

  // ---------------------------------------------------------------------------
  // Lookups

  function TeamsLike(db: Db, name: string, slug: string): set<nat> {
    set i | i in db.teams && (db.teams[i].name == name || db.teams[i].slug == slug)
  }

  function MembersOf(db: Db, teamId: nat, user: string): set<nat> {
    set i | i in db.members && db.members[i].teamId == teamId && db.members[i].user == user
  }

  function BindingsOf(db: Db, teamId: nat, roleId: nat): set<nat> {
    set i | i in db.bindings && db.bindings[i].teamId == teamId && db.bindings[i].roleId == roleId
  }

  function RolesNamed(db: Db, name: string): set<nat> {
    set i | i in db.roles && db.roles[i].name == name
  }

  function AssignmentsLike(db: Db, login: string, roleId: nat, scopeType: ScopeType): set<nat> {
    set i | i in db.assignments && db.assignments[i].login == login
      && db.assignments[i].roleId == roleId && db.assignments[i].scopeType == scopeType
  }

  function AssignmentsOfRole(db: Db, roleId: nat): set<nat> {
    set i | i in db.assignments && db.assignments[i].roleId == roleId
  }

  // ---------------------------------------------------------------------------
  // Teams

  function CreateTeam(cfg: Config, db: Db, name: string, info: TeamInfo): Result {
    var slug := Slug.Slugify(cfg.lower, name);
    var existing := TeamsLike(db, name, slug);
    if |existing| > 1 then (db, ManyRows)
    else if existing != {} then (db, Conflict)
    else InsertTeam(db, Team(name, slug, info))
  }

  /** INSERT under the unique constraints on name and slug. */
  function InsertTeam(db: Db, team: Team): Result {
    if TeamsLike(db, team.name, team.slug) != {} then (db, Violation)
    else (db.(teams := db.teams[db.nextId := team], nextId := db.nextId + 1), Done(db.nextId))
  }

  datatype TeamChange = TeamChange(
    name: Option<string>,
    description: Option<string>, githubOrg: Option<string>, githubTeamSlug: Option<string>, autoSync: Option<bool>)

  function OrElse<T>(new': Option<T>, old': T): T {
    if new'.Some? then new'.value else old'
  }

  function ChangedInfo(info: TeamInfo, change: TeamChange): TeamInfo {
    TeamInfo(
      if change.description.Some? then change.description else info.description,
      if change.githubOrg.Some? then change.githubOrg else info.githubOrg,
      if change.githubTeamSlug.Some? then change.githubTeamSlug else info.githubTeamSlug,
      OrElse(change.autoSync, info.autoSync))
  }

  function UpdateTeam(cfg: Config, db: Db, id: nat, change: TeamChange): Result {
    if id !in db.teams then (db, NotFound)
    else if change.name.None? then WriteTeam(db, id, db.teams[id].(info := ChangedInfo(db.teams[id].info, change)))
    else
      var slug := Slug.Slugify(cfg.lower, change.name.value);
      var others := TeamsLike(db, change.name.value, slug) - {id};
      if |others| > 1 then (db, ManyRows)
      else if others != {} then (db, Conflict)
      else WriteTeam(db, id, Team(change.name.value, slug, ChangedInfo(db.teams[id].info, change)))
  }

  /** UPDATE under the unique constraints on name and slug. */
  function WriteTeam(db: Db, id: nat, team: Team): Result {
    if TeamsLike(db, team.name, team.slug) - {id} != {} then (db, Violation)
    else (db.(teams := db.teams[id := team]), Done(id))
  }

  function DeleteTeam(db: Db, id: nat): Result {
    if id !in db.teams then (db, NotFound)
    else
      (db.(members := map m | m in db.members && db.members[m].teamId != id :: db.members[m],
           bindings := map b | b in db.bindings && db.bindings[b].teamId != id :: db.bindings[b],
           teams := db.teams - {id}),
       Done(id))
  }

  function AddMember(db: Db, teamId: nat, user: string): Result {
    if teamId !in db.teams then (db, NotFound)
    else
      var existing := MembersOf(db, teamId, user);
      if |existing| > 1 then (db, ManyRows)
      else if existing != {} then (db, Conflict)
      else InsertMember(db, Membership(teamId, user))
  }

  /** INSERT under the foreign key to teams and the unique constraint on (team, user). */
  function InsertMember(db: Db, row: Membership): Result {
    if row.teamId !in db.teams || MembersOf(db, row.teamId, row.user) != {} then (db, Violation)
    else (db.(members := db.members[db.nextId := row], nextId := db.nextId + 1), Done(db.nextId))
  }

  function RemoveMember(db: Db, teamId: nat, user: string): Result {
    var existing := MembersOf(db, teamId, user);
    if |existing| > 1 then (db, ManyRows)
    else if existing == {} then (db, NotFound)
    else (db.(members := db.members - existing), Done(teamId))
  }

  function AssignTeamRole(db: Db, teamId: nat, roleId: nat, orgSlug: Option<string>): Result {
    if teamId !in db.teams || roleId !in db.roles then (db, NotFound)
    else
      var existing := BindingsOf(db, teamId, roleId);
      if |existing| > 1 then (db, ManyRows)
      else if existing != {} then (db, Conflict)
      else InsertBinding(db, Binding(teamId, roleId, orgSlug))
  }

  /** INSERT under the foreign keys to teams and roles and the unique constraint on (team, role). */
  function InsertBinding(db: Db, row: Binding): Result {
    if row.teamId !in db.teams || row.roleId !in db.roles || BindingsOf(db, row.teamId, row.roleId) != {}
    then (db, Violation)
    else (db.(bindings := db.bindings[db.nextId := row], nextId := db.nextId + 1), Done(db.nextId))
  }

  function RemoveTeamRole(db: Db, teamId: nat, roleId: nat): Result {
    var existing := BindingsOf(db, teamId, roleId);
    if |existing| > 1 then (db, ManyRows)
    else if existing == {} then (db, NotFound)
    else (db.(bindings := db.bindings - existing), Done(teamId))
  }

  // ---------------------------------------------------------------------------
  // Roles

  function CreateRole(cfg: Config, db: Db, name: string, displayName: string, description: Option<string>,
                      permissions: seq<string>): Result {
    var existing := RolesNamed(db, name);
    if name in cfg.reserved then (db, Conflict)
    else if |existing| > 1 then (db, ManyRows)
    else if existing != {} then (db, Conflict)
    else match Permissions.Outcome(cfg.catalog, permissions)
      case Invalid(errors) => (db, Unprocessable(errors))
      case Valid(perms) => InsertRole(db, Role(name, displayName, description, perms, false))
  }

  /** INSERT under the unique constraint on name. */
  function InsertRole(db: Db, role: Role): Result {
    if RolesNamed(db, role.name) != {} then (db, Violation)
    else (db.(roles := db.roles[db.nextId := role], nextId := db.nextId + 1), Done(db.nextId))
  }

  datatype RoleChange = RoleChange(
    displayName: Option<string>, description: Option<string>, permissions: Option<seq<string>>)

  function UpdateRole(cfg: Config, db: Db, id: nat, change: RoleChange): Result {
    if id !in db.roles then (db, NotFound)
    else if db.roles[id].isSystem then (db, Forbidden)
    else
      var role := db.roles[id].(
        displayName := OrElse(change.displayName, db.roles[id].displayName),
        description := if change.description.Some? then change.description else db.roles[id].description);
      if change.permissions.None? then (db.(roles := db.roles[id := role]), Done(id))
      else match Permissions.Outcome(cfg.catalog, change.permissions.value)
        case Invalid(errors) => (db, Unprocessable(errors))
        case Valid(perms) => (db.(roles := db.roles[id := role.(permissions := perms)]), Done(id))
  }

  /** A role with assignment rows cannot go: the flush first sets their role to NULL, which the
      column refuses, and the foreign key behind it has no ON DELETE action. The foreign key from
      team bindings cascades. */
  function DeleteRole(db: Db, id: nat): Result {
    if id !in db.roles then (db, NotFound)
    else if db.roles[id].isSystem then (db, Forbidden)
    else if AssignmentsOfRole(db, id) != {} then (db, Violation)
    else
      (db.(roles := db.roles - {id},
           bindings := map b | b in db.bindings && db.bindings[b].roleId != id :: db.bindings[b]),
       Done(id))
  }

  // ---------------------------------------------------------------------------
  // Assignments

  /** CHECK: a global scope has no value, the others have one. */
  predicate ScopeFits(scopeType: ScopeType, scopeValue: Option<string>) {
    scopeType == Global <==> scopeValue == None
  }

  /** Rows equal under the unique index (login, role, scope type, COALESCE(scope value, '')). */
  predicate SameKey(a: Assignment, b: Assignment) {
    a.login == b.login && a.roleId == b.roleId && a.scopeType == b.scopeType
    && OrElse(a.scopeValue, "") == OrElse(b.scopeValue, "")
  }

  function CreateAssignment(db: Db, login: string, roleName: string, scopeType: ScopeType,
                            scopeValue: Option<string>): Result {
    var named := RolesNamed(db, roleName);
    if |named| > 1 then (db, ManyRows)
    else if named == {} then (db, NotFound)
    else
      var roleId := Only(named);
      var existing := AssignmentsLike(db, login, roleId, scopeType);
      if |existing| > 1 then (db, ManyRows)
      else if existing != {} then (db, Conflict)
      else InsertAssignment(db, Assignment(login, roleId, scopeType, scopeValue, true))
  }

  /** The row of a one-row lookup. */
  function Only(ids: set<nat>): (id: nat)
    requires |ids| == 1
    ensures ids == {id}
  {
    OnlyOne(ids);
    var id :| id in ids;
    id
  }

  lemma OnlyOne(ids: set<nat>)
    requires |ids| == 1
    ensures forall i, j :: i in ids && j in ids ==> i == j
    ensures forall i :: i in ids ==> ids == {i}
  {
    forall i | i in ids ensures ids == {i} {
      assert |ids - {i}| == 0;
    }
  }

  /** INSERT under the CHECK, the foreign key to roles and the unique index. */
  function InsertAssignment(db: Db, row: Assignment): Result {
    if !ScopeFits(row.scopeType, row.scopeValue) || row.roleId !in db.roles
       || exists i :: i in db.assignments && SameKey(db.assignments[i], row)
    then (db, Violation)
    else (db.(assignments := db.assignments[db.nextId := row], nextId := db.nextId + 1), Done(db.nextId))
  }

  function DeleteAssignment(db: Db, id: nat): Result {
    if id !in db.assignments then (db, NotFound)
    else (db.(assignments := db.assignments - {id}), Done(id))
  }

  // ---------------------------------------------------------------------------
  // Runs

  datatype Request =
    | ReqCreateTeam(name: string, info: TeamInfo)
    | ReqUpdateTeam(id: nat, teamChange: TeamChange)
    | ReqDeleteTeam(id: nat)
    | ReqAddMember(teamId: nat, user: string)
    | ReqRemoveMember(teamId: nat, user: string)
    | ReqAssignTeamRole(teamId: nat, roleId: nat, orgSlug: Option<string>)
    | ReqRemoveTeamRole(teamId: nat, roleId: nat)
    | ReqCreateRole(name: string, displayName: string, description: Option<string>, permissions: seq<string>)
    | ReqUpdateRole(id: nat, roleChange: RoleChange)
    | ReqDeleteRole(id: nat)
    | ReqCreateAssignment(login: string, roleName: string, scopeType: ScopeType, scopeValue: Option<string>)
    | ReqDeleteAssignment(id: nat)

  function Serve(cfg: Config, db: Db, r: Request): Result {
    match r
    case ReqCreateTeam(name, info) => CreateTeam(cfg, db, name, info)
    case ReqUpdateTeam(id, change) => UpdateTeam(cfg, db, id, change)
    case ReqDeleteTeam(id) => DeleteTeam(db, id)
    case ReqAddMember(t, u) => AddMember(db, t, u)
    case ReqRemoveMember(t, u) => RemoveMember(db, t, u)
    case ReqAssignTeamRole(t, r, o) => AssignTeamRole(db, t, r, o)
    case ReqRemoveTeamRole(t, r) => RemoveTeamRole(db, t, r)
    case ReqCreateRole(n, d, e, p) => CreateRole(cfg, db, n, d, e, p)
    case ReqUpdateRole(id, change) => UpdateRole(cfg, db, id, change)
    case ReqDeleteRole(id) => DeleteRole(db, id)
    case ReqCreateAssignment(l, r, t, v) => CreateAssignment(db, l, r, t, v)
    case ReqDeleteAssignment(id) => DeleteAssignment(db, id)
  }

  function Run(cfg: Config, db: Db, requests: seq<Request>): Db
    decreases |requests|
  {
    if requests == [] then db else Run(cfg, Serve(cfg, db, requests[0]).0, requests[1..])
  }

  // ---------------------------------------------------------------------------
  // The invariant

  /** Slugs are those of the names, and no two teams share one. */
  ghost predicate TeamsOk(cfg: Config, teams: map<nat, Team>) {
    && (forall i :: i in teams ==> teams[i].slug == Slug.Slugify(cfg.lower, teams[i].name))
    && (forall i, j :: i in teams && j in teams && teams[i].slug == teams[j].slug ==> i == j)
  }

  /** Members belong to existing teams, once each. */
  ghost predicate MembersOk(teamIds: set<nat>, members: map<nat, Membership>) {
    && (forall i :: i in members ==> members[i].teamId in teamIds)
    && (forall i, j :: i in members && j in members && members[i] == members[j] ==> i == j)
  }

  predicate SameBinding(a: Binding, b: Binding) {
    a.teamId == b.teamId && a.roleId == b.roleId
  }

  /** Bindings join existing teams to existing roles, once each. */
  ghost predicate BindingsOk(teamIds: set<nat>, roleIds: set<nat>, bindings: map<nat, Binding>) {
    && (forall i :: i in bindings ==> bindings[i].teamId in teamIds && bindings[i].roleId in roleIds)
    && (forall i, j :: i in bindings && j in bindings && SameBinding(bindings[i], bindings[j]) ==> i == j)
  }

  /** Role names are unique, and custom permission lists are in normal form. */
  ghost predicate RolesOk(cfg: Config, roles: map<nat, Role>) {
    && (forall i, j :: i in roles && j in roles && roles[i].name == roles[j].name ==> i == j)
    && (forall i :: i in roles && !roles[i].isSystem ==> Permissions.IsNormal(cfg.catalog, roles[i].permissions))
  }

  /** Rows equal under the endpoint's own duplicate test. */
  predicate SameGrant(a: Assignment, b: Assignment) {
    a.login == b.login && a.roleId == b.roleId && a.scopeType == b.scopeType
  }

  /** Assignments reference existing roles, fit their scope, are active, and differ under the
      unique index. */
  ghost predicate AssignmentsOk(roleIds: set<nat>, assignments: map<nat, Assignment>) {
    && (forall i :: i in assignments ==> assignments[i].roleId in roleIds && assignments[i].active)
    && (forall i :: i in assignments ==> ScopeFits(assignments[i].scopeType, assignments[i].scopeValue))
    && (forall i, j :: i in assignments && j in assignments && SameKey(assignments[i], assignments[j]) ==> i == j)
  }

  /** There is one assignment per (login, role, scope type): what the duplicate lookup relies on
      and no constraint says. */
  ghost predicate GrantsUnique(assignments: map<nat, Assignment>) {
    forall i, j :: i in assignments && j in assignments && SameGrant(assignments[i], assignments[j]) ==> i == j
  }

  /** Ids drawn so far lie below the counter. */
  predicate Below(ids: set<nat>, n: nat) {
    forall i :: i in ids ==> i < n
  }

  /** What the constraints and the endpoints keep between them, however requests interleave. */
  ghost predicate Core(cfg: Config, db: Db) {
    && TeamsOk(cfg, db.teams)
    && MembersOk(db.teams.Keys, db.members)
    && BindingsOk(db.teams.Keys, db.roles.Keys, db.bindings)
    && RolesOk(cfg, db.roles)
    && AssignmentsOk(db.roles.Keys, db.assignments)
    && Below(db.roles.Keys, db.nextId) && Below(db.teams.Keys, db.nextId) && Below(db.members.Keys, db.nextId)
    && Below(db.bindings.Keys, db.nextId) && Below(db.assignments.Keys, db.nextId)
  }

  ghost predicate Inv(cfg: Config, db: Db) {
    Core(cfg, db) && GrantsUnique(db.assignments)
  }

  /** A deployment starts with its system roles and nothing else. */
  ghost predicate Init(db: Db) {
    && db.teams == map[] && db.members == map[] && db.bindings == map[] && db.assignments == map[]
    && Below(db.roles.Keys, db.nextId)
    && (forall i :: i in db.roles ==> db.roles[i].isSystem)
    && (forall i, j :: i in db.roles && j in db.roles && db.roles[i].name == db.roles[j].name ==> i == j)
  }

  // ---------------------------------------------------------------------------
  // Every lookup for at most one row finds at most one

  lemma AtMostOne(ids: set<nat>)
    requires forall i, j :: i in ids && j in ids ==> i == j
    ensures |ids| <= 1
  {
    if ids != {} {
      var i :| i in ids;
      assert ids == {i};
    }
  }

  /** Equal names have equal slugs, so a name-or-slug lookup matches rows by slug alone. */
  lemma LikeMeansSameSlug(cfg: Config, db: Db, name: string)
    requires TeamsOk(cfg, db.teams)
    ensures var slug := Slug.Slugify(cfg.lower, name);
            && (forall i :: i in TeamsLike(db, name, slug) <==> i in db.teams && db.teams[i].slug == slug)
            && |TeamsLike(db, name, slug)| <= 1
  {
    hide Slug.Slugify;
    AtMostOne(TeamsLike(db, name, Slug.Slugify(cfg.lower, name)));
  }

  lemma MembersUnique(db: Db, teamId: nat, user: string)
    requires MembersOk(db.teams.Keys, db.members)
    ensures |MembersOf(db, teamId, user)| <= 1
  {
    forall i, j | i in MembersOf(db, teamId, user) && j in MembersOf(db, teamId, user) ensures i == j {
      assert db.members[i] == db.members[j];
    }
    AtMostOne(MembersOf(db, teamId, user));
  }

  lemma BindingsUnique(db: Db, teamId: nat, roleId: nat)
    requires BindingsOk(db.teams.Keys, db.roles.Keys, db.bindings)
    ensures |BindingsOf(db, teamId, roleId)| <= 1
  {
    forall i, j | i in BindingsOf(db, teamId, roleId) && j in BindingsOf(db, teamId, roleId) ensures i == j {
      assert SameBinding(db.bindings[i], db.bindings[j]);
    }
    AtMostOne(BindingsOf(db, teamId, roleId));
  }

  lemma RolesUnique(cfg: Config, db: Db, name: string)
    requires RolesOk(cfg, db.roles)
    ensures |RolesNamed(db, name)| <= 1
  {
    AtMostOne(RolesNamed(db, name));
  }

  lemma AssignmentsUnique(db: Db, login: string, roleId: nat, scopeType: ScopeType)
    requires GrantsUnique(db.assignments)
    ensures |AssignmentsLike(db, login, roleId, scopeType)| <= 1
  {
    forall i, j | i in AssignmentsLike(db, login, roleId, scopeType) && j in AssignmentsLike(db, login, roleId, scopeType)
      ensures i == j
    {
      assert SameGrant(db.assignments[i], db.assignments[j]);
    }
    AtMostOne(AssignmentsLike(db, login, roleId, scopeType));
  }

  // ---------------------------------------------------------------------------
  // One table at a time

  lemma PutTeam(cfg: Config, db: Db, id: nat, team: Team)
    requires TeamsOk(cfg, db.teams)
    requires team.slug == Slug.Slugify(cfg.lower, team.name)
    requires TeamsLike(db, team.name, team.slug) - {id} == {}
    ensures TeamsOk(cfg, db.teams[id := team])
  {
    hide Slug.Slugify;
    forall i | i in db.teams && i != id ensures db.teams[i].slug != team.slug {
      assert i !in TeamsLike(db, team.name, team.slug) - {id};
    }
  }

  lemma DropTeam(cfg: Config, db: Db, id: nat)
    requires TeamsOk(cfg, db.teams) && MembersOk(db.teams.Keys, db.members)
    requires BindingsOk(db.teams.Keys, db.roles.Keys, db.bindings)
    ensures var db' := DeleteTeam(db, id).0;
            && TeamsOk(cfg, db'.teams) && MembersOk(db'.teams.Keys, db'.members)
            && BindingsOk(db'.teams.Keys, db'.roles.Keys, db'.bindings)
  {
    hide Slug.Slugify;
  }

  lemma GrowTeams(teamIds: set<nat>, id: nat, roleIds: set<nat>, members: map<nat, Membership>, bindings: map<nat, Binding>)
    requires MembersOk(teamIds, members) && BindingsOk(teamIds, roleIds, bindings)
    ensures MembersOk(teamIds + {id}, members) && BindingsOk(teamIds + {id}, roleIds, bindings)
  {
  }

  lemma PutMember(db: Db, id: nat, row: Membership)
    requires MembersOk(db.teams.Keys, db.members) && id !in db.members
    requires row.teamId in db.teams && MembersOf(db, row.teamId, row.user) == {}
    ensures MembersOk(db.teams.Keys, db.members[id := row])
  {
    forall i | i in db.members ensures db.members[i] != row {
      assert i !in MembersOf(db, row.teamId, row.user);
    }
  }

  lemma PutBinding(db: Db, id: nat, row: Binding)
    requires BindingsOk(db.teams.Keys, db.roles.Keys, db.bindings) && id !in db.bindings
    requires row.teamId in db.teams && row.roleId in db.roles && BindingsOf(db, row.teamId, row.roleId) == {}
    ensures BindingsOk(db.teams.Keys, db.roles.Keys, db.bindings[id := row])
  {
    forall i | i in db.bindings ensures !SameBinding(db.bindings[i], row) {
      assert i !in BindingsOf(db, row.teamId, row.roleId);
    }
  }

  lemma PutRole(cfg: Config, db: Db, id: nat, role: Role)
    requires RolesOk(cfg, db.roles)
    requires RolesNamed(db, role.name) - {id} == {}
    requires !role.isSystem ==> Permissions.IsNormal(cfg.catalog, role.permissions)
    ensures RolesOk(cfg, db.roles[id := role])
  {
    hide Permissions.IsNormal;
    forall i | i in db.roles && i != id ensures db.roles[i].name != role.name {
      assert i !in RolesNamed(db, role.name) - {id};
    }
  }

  lemma GrowRoles(roleIds: set<nat>, id: nat, teamIds: set<nat>, bindings: map<nat, Binding>, assignments: map<nat, Assignment>)
    requires BindingsOk(teamIds, roleIds, bindings) && AssignmentsOk(roleIds, assignments)
    ensures BindingsOk(teamIds, roleIds + {id}, bindings) && AssignmentsOk(roleIds + {id}, assignments)
  {
  }

  lemma DropRole(cfg: Config, db: Db, id: nat)
    requires RolesOk(cfg, db.roles) && AssignmentsOk(db.roles.Keys, db.assignments)
    requires BindingsOk(db.teams.Keys, db.roles.Keys, db.bindings)
    ensures var db' := DeleteRole(db, id).0;
            && RolesOk(cfg, db'.roles) && AssignmentsOk(db'.roles.Keys, db'.assignments)
            && BindingsOk(db'.teams.Keys, db'.roles.Keys, db'.bindings)
  {
    hide RolesOk, AssignmentsOk, BindingsOk, AssignmentsOfRole;
    if AssignmentsOfRole(db, id) == {} {
      FewerRoles(cfg, db.roles, id);
      UngrantedRole(db, id);
      BindingsOfOtherRoles(db.teams.Keys, db.roles.Keys, db.bindings, id);
      assert (db.roles - {id}).Keys == db.roles.Keys - {id};
    }
  }

  lemma FewerRoles(cfg: Config, roles: map<nat, Role>, id: nat)
    requires RolesOk(cfg, roles)
    ensures RolesOk(cfg, roles - {id})
  {
    hide Permissions.IsNormal;
  }

  lemma UngrantedRole(db: Db, id: nat)
    requires AssignmentsOk(db.roles.Keys, db.assignments) && AssignmentsOfRole(db, id) == {}
    ensures AssignmentsOk(db.roles.Keys - {id}, db.assignments)
  {
    forall i | i in db.assignments ensures db.assignments[i].roleId != id {
      assert i !in AssignmentsOfRole(db, id);
    }
  }

  lemma BindingsOfOtherRoles(teamIds: set<nat>, roleIds: set<nat>, bindings: map<nat, Binding>, id: nat)
    requires BindingsOk(teamIds, roleIds, bindings)
    ensures BindingsOk(teamIds, roleIds - {id}, map b | b in bindings && bindings[b].roleId != id :: bindings[b])
  {
  }

  lemma PutAssignment(db: Db, id: nat, row: Assignment)
    requires AssignmentsOk(db.roles.Keys, db.assignments) && id !in db.assignments
    requires row.roleId in db.roles && row.active && ScopeFits(row.scopeType, row.scopeValue)
    requires forall i :: i in db.assignments ==> !SameKey(db.assignments[i], row)
    ensures AssignmentsOk(db.roles.Keys, db.assignments[id := row])
  {
  }

  lemma PutGrant(db: Db, id: nat, row: Assignment)
    requires AssignmentsLike(db, row.login, row.roleId, row.scopeType) == {}
    ensures forall i :: i in db.assignments ==> !SameKey(db.assignments[i], row)
    ensures GrantsUnique(db.assignments) ==> GrantsUnique(db.assignments[id := row])
  {
    forall i | i in db.assignments ensures !SameGrant(db.assignments[i], row) {
      assert i !in AssignmentsLike(db, row.login, row.roleId, row.scopeType);
    }
  }

  // ---------------------------------------------------------------------------
  // Every endpoint keeps the invariant

  lemma CreateTeamKeeps(cfg: Config, db: Db, name: string, info: TeamInfo)
    requires Core(cfg, db)
    ensures var (db', outcome) := CreateTeam(cfg, db, name, info);
            Core(cfg, db') && (outcome == Conflict || outcome == Done(db.nextId))
  {
    hide Slug.Slugify, TeamsOk, MembersOk, BindingsOk, RolesOk, AssignmentsOk;
    var slug := Slug.Slugify(cfg.lower, name);
    LikeMeansSameSlug(cfg, db, name);
    if TeamsLike(db, name, slug) == {} {
      PutTeam(cfg, db, db.nextId, Team(name, slug, info));
      NewTeamKeeps(cfg, db, Team(name, slug, info));
    }
  }

  lemma NewTeamKeeps(cfg: Config, db: Db, team: Team)
    requires Core(cfg, db) && TeamsOk(cfg, db.teams[db.nextId := team])
    ensures Core(cfg, db.(teams := db.teams[db.nextId := team], nextId := db.nextId + 1))
  {
    hide TeamsOk, MembersOk, BindingsOk, RolesOk, AssignmentsOk;
    GrowTeams(db.teams.Keys, db.nextId, db.roles.Keys, db.members, db.bindings);
    assert db.teams[db.nextId := team].Keys == db.teams.Keys + {db.nextId};
  }

  lemma UpdateTeamKeeps(cfg: Config, db: Db, id: nat, change: TeamChange)
    requires Core(cfg, db)
    ensures var (db', outcome) := UpdateTeam(cfg, db, id, change);
            Core(cfg, db') && (outcome == NotFound || outcome == Conflict || outcome == Done(id))
  {
    hide Slug.Slugify, TeamsOk, MembersOk, BindingsOk, RolesOk, AssignmentsOk, ChangedInfo;
    if id in db.teams {
      var name := if change.name.Some? then change.name.value else db.teams[id].name;
      var slug := Slug.Slugify(cfg.lower, name);
      OthersLike(cfg, db, id, name);
      if TeamsLike(db, name, slug) - {id} == {} {
        PutTeam(cfg, db, id, Team(name, slug, ChangedInfo(db.teams[id].info, change)));
        assert db.teams[id := Team(name, slug, ChangedInfo(db.teams[id].info, change))].Keys == db.teams.Keys;
      }
    }
  }

  lemma OthersLike(cfg: Config, db: Db, id: nat, name: string)
    requires TeamsOk(cfg, db.teams) && id in db.teams
    ensures var others := TeamsLike(db, name, Slug.Slugify(cfg.lower, name)) - {id};
            |others| <= 1 && (name == db.teams[id].name ==> others == {})
    ensures db.teams[id].slug == Slug.Slugify(cfg.lower, db.teams[id].name)
  {
    hide Slug.Slugify;
    LikeMeansSameSlug(cfg, db, name);
    AtMostOne(TeamsLike(db, name, Slug.Slugify(cfg.lower, name)) - {id});
  }

  lemma DeleteTeamKeeps(cfg: Config, db: Db, id: nat)
    requires Core(cfg, db)
    ensures var (db', outcome) := DeleteTeam(db, id);
            Core(cfg, db') && (outcome == NotFound || outcome == Done(id))
  {
    hide TeamsOk, MembersOk, BindingsOk, RolesOk, AssignmentsOk;
    DropTeam(cfg, db, id);
  }

  lemma AddMemberKeeps(cfg: Config, db: Db, teamId: nat, user: string)
    requires Core(cfg, db)
    ensures var (db', outcome) := AddMember(db, teamId, user);
            Core(cfg, db') && (outcome == NotFound || outcome == Conflict || outcome == Done(db.nextId))
  {
    hide TeamsOk, MembersOk, BindingsOk, RolesOk, AssignmentsOk, MembersOf;
    MembersUnique(db, teamId, user);
    if teamId in db.teams && MembersOf(db, teamId, user) == {} {
      PutMember(db, db.nextId, Membership(teamId, user));
    }
  }

  lemma RemoveMemberKeeps(cfg: Config, db: Db, teamId: nat, user: string)
    requires Core(cfg, db)
    ensures var (db', outcome) := RemoveMember(db, teamId, user);
            Core(cfg, db') && (outcome == NotFound || outcome == Done(teamId))
  {
    hide TeamsOk, BindingsOk, RolesOk, AssignmentsOk, MembersOf;
    MembersUnique(db, teamId, user);
  }

  lemma AssignTeamRoleKeeps(cfg: Config, db: Db, teamId: nat, roleId: nat, orgSlug: Option<string>)
    requires Core(cfg, db)
    ensures var (db', outcome) := AssignTeamRole(db, teamId, roleId, orgSlug);
            Core(cfg, db') && (outcome == NotFound || outcome == Conflict || outcome == Done(db.nextId))
  {
    hide TeamsOk, MembersOk, BindingsOk, RolesOk, AssignmentsOk, BindingsOf;
    BindingsUnique(db, teamId, roleId);
    if teamId in db.teams && roleId in db.roles && BindingsOf(db, teamId, roleId) == {} {
      PutBinding(db, db.nextId, Binding(teamId, roleId, orgSlug));
    }
  }

  lemma RemoveTeamRoleKeeps(cfg: Config, db: Db, teamId: nat, roleId: nat)
    requires Core(cfg, db)
    ensures var (db', outcome) := RemoveTeamRole(db, teamId, roleId);
            Core(cfg, db') && (outcome == NotFound || outcome == Done(teamId))
  {
    hide TeamsOk, MembersOk, RolesOk, AssignmentsOk, BindingsOf;
    BindingsUnique(db, teamId, roleId);
  }

  lemma CreateRoleKeeps(cfg: Config, db: Db, name: string, displayName: string, description: Option<string>,
                        permissions: seq<string>)
    requires Core(cfg, db)
    ensures var (db', outcome) := CreateRole(cfg, db, name, displayName, description, permissions);
            Core(cfg, db') && (outcome == Conflict || outcome.Unprocessable? || outcome == Done(db.nextId))
  {
    hide TeamsOk, MembersOk, BindingsOk, RolesOk, AssignmentsOk, RolesNamed, Permissions.Outcome, Permissions.IsNormal;
    RolesUnique(cfg, db, name);
    var validation := Permissions.Outcome(cfg.catalog, permissions);
    if name !in cfg.reserved && RolesNamed(db, name) == {} && validation.Valid? {
      Permissions.ValidIsNormal(cfg.catalog, permissions);
      var role := Role(name, displayName, description, validation.perms, false);
      PutRole(cfg, db, db.nextId, role);
      NewRoleKeeps(cfg, db, role);
    }
  }

  lemma NewRoleKeeps(cfg: Config, db: Db, role: Role)
    requires Core(cfg, db) && RolesOk(cfg, db.roles[db.nextId := role])
    ensures Core(cfg, db.(roles := db.roles[db.nextId := role], nextId := db.nextId + 1))
  {
    hide TeamsOk, MembersOk, BindingsOk, RolesOk, AssignmentsOk;
    GrowRoles(db.roles.Keys, db.nextId, db.teams.Keys, db.bindings, db.assignments);
    assert db.roles[db.nextId := role].Keys == db.roles.Keys + {db.nextId};
  }

  lemma UpdateRoleKeeps(cfg: Config, db: Db, id: nat, change: RoleChange)
    requires Core(cfg, db)
    ensures var (db', outcome) := UpdateRole(cfg, db, id, change);
            Core(cfg, db') && (outcome == NotFound || outcome == Forbidden || outcome == Done(id) || outcome.Unprocessable?)
  {
    hide TeamsOk, MembersOk, BindingsOk, RolesOk, AssignmentsOk, RolesNamed, Permissions.Outcome, Permissions.IsNormal;
    var (db', outcome) := UpdateRole(cfg, db, id, change);
    if outcome == Done(id) {
      OwnName(cfg, db, id);
      if change.permissions.Some? {
        Permissions.ValidIsNormal(cfg.catalog, change.permissions.value);
      }
      PutRole(cfg, db, id, db'.roles[id]);
      assert db'.roles == db.roles[id := db'.roles[id]] && db'.roles.Keys == db.roles.Keys;
    }
  }

  lemma OwnName(cfg: Config, db: Db, id: nat)
    requires RolesOk(cfg, db.roles) && id in db.roles
    ensures RolesNamed(db, db.roles[id].name) - {id} == {}
    ensures !db.roles[id].isSystem ==> Permissions.IsNormal(cfg.catalog, db.roles[id].permissions)
  {
  }

  lemma DeleteRoleKeeps(cfg: Config, db: Db, id: nat)
    requires Core(cfg, db)
    ensures var (db', outcome) := DeleteRole(db, id);
            Core(cfg, db') && (outcome == NotFound || outcome == Forbidden || outcome == Violation || outcome == Done(id))
  {
    hide TeamsOk, MembersOk, BindingsOk, RolesOk, AssignmentsOk, AssignmentsOfRole;
    DropRole(cfg, db, id);
  }

  lemma CreateAssignmentKeeps(cfg: Config, db: Db, login: string, roleName: string, scopeType: ScopeType,
                              scopeValue: Option<string>)
    requires Core(cfg, db)
    ensures var (db', outcome) := CreateAssignment(db, login, roleName, scopeType, scopeValue);
            && Core(cfg, db')
            && (outcome == ManyRows ==> !GrantsUnique(db.assignments))
            && (GrantsUnique(db.assignments) ==> GrantsUnique(db'.assignments))
            && (outcome == ManyRows || outcome == NotFound || outcome == Conflict || outcome == Violation
                || outcome == Done(db.nextId))
            && (outcome == Violation ==> !ScopeFits(scopeType, scopeValue))
  {
    hide TeamsOk, MembersOk, BindingsOk, RolesOk, AssignmentsOk, GrantsUnique, AssignmentsLike, RolesNamed, ScopeFits,
         SameKey;
    RolesUnique(cfg, db, roleName);
    var named := RolesNamed(db, roleName);
    if |named| == 1 {
      var roleId := Only(named);
      NamedExists(db, roleName, roleId);
      if GrantsUnique(db.assignments) {
        AssignmentsUnique(db, login, roleId, scopeType);
      }
      if AssignmentsLike(db, login, roleId, scopeType) == {} {
        var row := Assignment(login, roleId, scopeType, scopeValue, true);
        PutGrant(db, db.nextId, row);
        if ScopeFits(scopeType, scopeValue) {
          PutAssignment(db, db.nextId, row);
        }
      }
    }
  }

  lemma NamedExists(db: Db, name: string, id: nat)
    requires id in RolesNamed(db, name)
    ensures id in db.roles
  {
  }

  lemma DeleteAssignmentKeeps(cfg: Config, db: Db, id: nat)
    requires Core(cfg, db)
    ensures var (db', outcome) := DeleteAssignment(db, id);
            && Core(cfg, db') && (outcome == NotFound || outcome == Done(id))
            && (GrantsUnique(db.assignments) ==> GrantsUnique(db'.assignments))
  {
    hide TeamsOk, MembersOk, BindingsOk, RolesOk;
  }

  // ---------------------------------------------------------------------------
  // Main results

  lemma OthersKeepAssignments(cfg: Config, db: Db, r: Request)
    requires !r.ReqCreateAssignment? && !r.ReqDeleteAssignment?
    ensures Serve(cfg, db, r).0.assignments == db.assignments
  {
    hide Slug.Slugify, TeamsLike, MembersOf, BindingsOf, RolesNamed, AssignmentsLike, AssignmentsOfRole,
         Permissions.Outcome, ChangedInfo;
  }

  /** On tables that satisfy the constraints, whatever else they hold, every request keeps them
      so, and only the duplicate lookup of a grant can find several rows. */
  lemma ServeKeepsCore(cfg: Config, db: Db, r: Request)
    requires Core(cfg, db)
    ensures Core(cfg, Serve(cfg, db, r).0)
    ensures Serve(cfg, db, r).1 == ManyRows ==> r.ReqCreateAssignment? && !GrantsUnique(db.assignments)
    ensures GrantsUnique(db.assignments) ==> GrantsUnique(Serve(cfg, db, r).0.assignments)
  {
    hide Core, GrantsUnique, CreateTeam, UpdateTeam, DeleteTeam, AddMember, RemoveMember, AssignTeamRole,
         RemoveTeamRole, CreateRole, UpdateRole, DeleteRole, CreateAssignment, DeleteAssignment;
    match r
    case ReqCreateAssignment(l, n, t, v) => CreateAssignmentKeeps(cfg, db, l, n, t, v);
    case ReqDeleteAssignment(id) => DeleteAssignmentKeeps(cfg, db, id);
    case _ =>
      OthersKeepAssignments(cfg, db, r);
      OthersKeepCore(cfg, db, r);
  }

  lemma OthersKeepCore(cfg: Config, db: Db, r: Request)
    requires Core(cfg, db) && !r.ReqCreateAssignment? && !r.ReqDeleteAssignment?
    ensures Core(cfg, Serve(cfg, db, r).0)
    ensures Serve(cfg, db, r).1 != ManyRows && (Serve(cfg, db, r).1 == Violation ==> r.ReqDeleteRole?)
  {
    hide Core, CreateTeam, UpdateTeam, DeleteTeam, AddMember, RemoveMember, AssignTeamRole, RemoveTeamRole,
         CreateRole, UpdateRole, DeleteRole, CreateAssignment, DeleteAssignment;
    match r
    case ReqCreateTeam(name, info) => CreateTeamKeeps(cfg, db, name, info);
    case ReqUpdateTeam(id, change) => UpdateTeamKeeps(cfg, db, id, change);
    case ReqDeleteTeam(id) => DeleteTeamKeeps(cfg, db, id);
    case ReqAddMember(t, u) => AddMemberKeeps(cfg, db, t, u);
    case ReqRemoveMember(t, u) => RemoveMemberKeeps(cfg, db, t, u);
    case ReqAssignTeamRole(t, r, o) => AssignTeamRoleKeeps(cfg, db, t, r, o);
    case ReqRemoveTeamRole(t, r) => RemoveTeamRoleKeeps(cfg, db, t, r);
    case ReqCreateRole(n, d, e, p) => CreateRoleKeeps(cfg, db, n, d, e, p);
    case ReqUpdateRole(id, change) => UpdateRoleKeeps(cfg, db, id, change);
    case ReqDeleteRole(id) => DeleteRoleKeeps(cfg, db, id);
  }

  /** Every request keeps the invariant, and no lookup for at most one row ever finds several. */
  lemma ServeKeepsInv(cfg: Config, db: Db, r: Request)
    requires Inv(cfg, db)
    ensures Inv(cfg, Serve(cfg, db, r).0) && Serve(cfg, db, r).1 != ManyRows
  {
    hide Core, GrantsUnique, Serve;
    ServeKeepsCore(cfg, db, r);
  }

  lemma InitInv(cfg: Config, db: Db)
    requires Init(db)
    ensures Inv(cfg, db)
  {
  }

  /** The invariant holds after any sequence of requests. */
  lemma {:induction false} RunKeepsInv(cfg: Config, db: Db, requests: seq<Request>)
    requires Inv(cfg, db)
    ensures Inv(cfg, Run(cfg, db, requests))
    decreases |requests|
  {
    hide Inv, Serve;
    if requests != [] {
      ServeKeepsInv(cfg, db, requests[0]);
      RunKeepsInv(cfg, Serve(cfg, db, requests[0]).0, requests[1..]);
    }
  }

  /** What the service promises of its tables: team slugs follow names and are distinct, links
      resolve and are unique, no grant dangles or repeats, and custom permission lists are sorted,
      well formed and never the global wildcard. */
  ghost predicate AsPromised(cfg: Config, t: Db) {
    && (forall i :: i in t.teams ==> t.teams[i].slug == Slug.Slugify(cfg.lower, t.teams[i].name))
    && (forall i, j :: i in t.teams && j in t.teams && i != j ==>
          t.teams[i].slug != t.teams[j].slug && t.teams[i].name != t.teams[j].name)
    && (forall i :: i in t.members ==> t.members[i].teamId in t.teams)
    && (forall i, j :: i in t.members && j in t.members && i != j ==> t.members[i] != t.members[j])
    && (forall i :: i in t.bindings ==> t.bindings[i].teamId in t.teams && t.bindings[i].roleId in t.roles)
    && (forall i, j :: i in t.bindings && j in t.bindings && i != j ==> !SameBinding(t.bindings[i], t.bindings[j]))
    && (forall i :: i in t.assignments ==> t.assignments[i].roleId in t.roles && t.assignments[i].active)
    && (forall i, j :: i in t.assignments && j in t.assignments && i != j ==>
          !SameGrant(t.assignments[i], t.assignments[j]))
    && (forall i :: i in t.roles && !t.roles[i].isSystem ==>
          Permissions.StrictlySorted(t.roles[i].permissions) && "*:*" !in t.roles[i].permissions
          && forall p :: p in t.roles[i].permissions ==> Permissions.WellFormed(cfg.catalog, p))
  }

  lemma InvIsPromised(cfg: Config, t: Db)
    requires Inv(cfg, t)
    ensures AsPromised(cfg, t)
  {
    hide Slug.Slugify, Permissions.StrictlySorted;
  }

  /** Whatever requests a deployment serves, its tables are as promised. */
  lemma {:induction false} ReachableTables(cfg: Config, db: Db, requests: seq<Request>)
    requires Init(db)
    ensures AsPromised(cfg, Run(cfg, db, requests))
  {
    hide Run, Inv, AsPromised;
    InitInv(cfg, db);
    RunKeepsInv(cfg, db, requests);
    InvIsPromised(cfg, Run(cfg, db, requests));
  }

  /** A constraint fires in two cases only: a role deleted while any assignment row, active or
      not, still refers to it, and an assignment whose scope value does not fit its type. In
      particular no unique constraint ever does. */
  lemma {:induction false} ViolationExactlyWhen(cfg: Config, db: Db, r: Request)
    requires Inv(cfg, db)
    ensures Serve(cfg, db, r).1 == Violation <==>
            match r
            case ReqDeleteRole(id) => id in db.roles && !db.roles[id].isSystem && AssignmentsOfRole(db, id) != {}
            case ReqCreateAssignment(login, name, scopeType, scopeValue) =>
              !ScopeFits(scopeType, scopeValue) && |RolesNamed(db, name)| == 1
              && AssignmentsLike(db, login, Only(RolesNamed(db, name)), scopeType) == {}
            case _ => false
  {
    hide Core, CreateTeam, UpdateTeam, DeleteTeam, AddMember, RemoveMember, AssignTeamRole, RemoveTeamRole,
         CreateRole, UpdateRole, RolesNamed, AssignmentsLike, AssignmentsOfRole, SameKey, ScopeFits, GrantsUnique;
    match r
    case ReqCreateAssignment(l, n, t, v) =>
      CreateAssignmentKeeps(cfg, db, l, n, t, v);
      NamedRole(cfg, db, n);
    case ReqDeleteRole(_) =>
    case ReqDeleteAssignment(_) =>
    case _ => OthersKeepCore(cfg, db, r);
  }

  lemma NamedRole(cfg: Config, db: Db, name: string)
    requires Core(cfg, db)
    ensures |RolesNamed(db, name)| <= 1
    ensures |RolesNamed(db, name)| == 1 ==> Only(RolesNamed(db, name)) in db.roles
  {
    RolesUnique(cfg, db, name);
  }

  /** A request that does not commit leaves the tables alone. */
  lemma FailureRollsBack(cfg: Config, db: Db, r: Request)
    ensures !Serve(cfg, db, r).1.Done? ==> Serve(cfg, db, r).0 == db
  {
    hide Slug.Slugify, TeamsLike, MembersOf, BindingsOf, RolesNamed, AssignmentsLike, AssignmentsOfRole,
         Permissions.Outcome, ScopeFits, SameKey, ChangedInfo;
  }

  function SystemRoles(db: Db): map<nat, Role> {
    map i | i in db.roles && db.roles[i].isSystem :: db.roles[i]
  }

  lemma RoleRowsKeepSystem(before: map<nat, Role>, after: map<nat, Role>, id: nat)
    requires id in before ==> !before[id].isSystem
    requires id in after ==> !after[id].isSystem
    requires forall i :: i != id ==> (i in before <==> i in after) && (i in before ==> after[i] == before[i])
    ensures (map i | i in before && before[i].isSystem :: before[i]) == (map i | i in after && after[i].isSystem :: after[i])
  {
  }

  lemma CreateRoleKeepsSystemRoles(cfg: Config, db: Db, name: string, displayName: string, description: Option<string>,
                                   permissions: seq<string>)
    requires Below(db.roles.Keys, db.nextId)
    ensures SystemRoles(CreateRole(cfg, db, name, displayName, description, permissions).0) == SystemRoles(db)
  {
    hide RolesNamed, Permissions.Outcome;
    RoleRowsKeepSystem(db.roles, CreateRole(cfg, db, name, displayName, description, permissions).0.roles, db.nextId);
  }

  lemma UpdatedRole(cfg: Config, db: Db, id: nat, change: RoleChange)
    ensures var db' := UpdateRole(cfg, db, id, change).0;
            db' == db || (id in db.roles && !db.roles[id].isSystem && id in db'.roles && !db'.roles[id].isSystem
                          && db'.roles == db.roles[id := db'.roles[id]])
  {
    hide Permissions.Outcome;
  }

  lemma OneRoleRewritten(db: Db, db': Db, id: nat)
    requires id in db.roles && !db.roles[id].isSystem && id in db'.roles && !db'.roles[id].isSystem
    requires db'.roles == db.roles[id := db'.roles[id]]
    ensures SystemRoles(db') == SystemRoles(db)
  {
    RoleRowsKeepSystem(db.roles, db'.roles, id);
  }

  lemma UpdateRoleKeepsSystemRoles(cfg: Config, db: Db, id: nat, change: RoleChange)
    ensures SystemRoles(UpdateRole(cfg, db, id, change).0) == SystemRoles(db)
  {
    hide Permissions.Outcome, SystemRoles;
    UpdatedRole(cfg, db, id, change);
    var db' := UpdateRole(cfg, db, id, change).0;
    if db' == db {
      SameRolesSameSystem(db, db');
    } else {
      OneRoleRewritten(db, db', id);
    }
  }

  lemma DeleteRoleKeepsSystemRoles(db: Db, id: nat)
    ensures SystemRoles(DeleteRole(db, id).0) == SystemRoles(db)
  {
    hide AssignmentsOfRole;
    if id in db.roles && !db.roles[id].isSystem {
      RoleRowsKeepSystem(db.roles, DeleteRole(db, id).0.roles, id);
    }
  }

  lemma SameRolesSameSystem(db: Db, db': Db)
    requires db'.roles == db.roles
    ensures SystemRoles(db') == SystemRoles(db)
  {
  }

  lemma OtherRequestsKeepRoles(cfg: Config, db: Db, r: Request)
    requires !(r.ReqCreateRole? || r.ReqUpdateRole? || r.ReqDeleteRole?)
    ensures Serve(cfg, db, r).0.roles == db.roles
  {
    hide Slug.Slugify, TeamsLike, MembersOf, BindingsOf, RolesNamed, AssignmentsLike, ScopeFits, SameKey, ChangedInfo;
  }

  lemma ServeKeepsSystemRoles(cfg: Config, db: Db, r: Request)
    requires Inv(cfg, db)
    ensures SystemRoles(Serve(cfg, db, r).0) == SystemRoles(db)
  {
    hide CreateTeam, UpdateTeam, DeleteTeam, AddMember, RemoveMember, AssignTeamRole, RemoveTeamRole, CreateRole,
         UpdateRole, DeleteRole, CreateAssignment, DeleteAssignment, TeamsOk, MembersOk, BindingsOk, RolesOk,
         AssignmentsOk, SystemRoles;
    match r
    case ReqCreateRole(n, d, e, p) => CreateRoleKeepsSystemRoles(cfg, db, n, d, e, p);
    case ReqUpdateRole(id, change) => UpdateRoleKeepsSystemRoles(cfg, db, id, change);
    case ReqDeleteRole(id) => DeleteRoleKeepsSystemRoles(db, id);
    case _ =>
      OtherRequestsKeepRoles(cfg, db, r);
      SameRolesSameSystem(db, Serve(cfg, db, r).0);
  }

  /** The system roles and all their fields are constant over every run. */
  lemma {:induction false} SystemRolesConstant(cfg: Config, db: Db, requests: seq<Request>)
    requires Inv(cfg, db)
    ensures SystemRoles(Run(cfg, db, requests)) == SystemRoles(db)
    decreases |requests|
  {
    hide Inv, Serve, SystemRoles;
    if requests != [] {
      ServeKeepsSystemRoles(cfg, db, requests[0]);
      ServeKeepsInv(cfg, db, requests[0]);
      SystemRolesConstant(cfg, Serve(cfg, db, requests[0]).0, requests[1..]);
    }
  }

  /** Some team outside `except` has a name with the same alphanumeric runs. */
  ghost predicate RunsTaken(cfg: Config, db: Db, name: string, except: set<nat>) {
    exists i :: i in db.teams && i !in except
      && Slug.EffectiveRuns(cfg.lower(db.teams[i].name)) == Slug.EffectiveRuns(cfg.lower(name))
  }

  /** A new team is refused exactly when an existing name has the same alphanumeric runs; otherwise
      the table gains its row, slug and details included, and nothing else changes. */
  lemma {:induction false} CreateTeamConflictsExactlyWhen(cfg: Config, db: Db, name: string, info: TeamInfo)
    requires Inv(cfg, db)
    ensures var (db', outcome) := Serve(cfg, db, ReqCreateTeam(name, info));
            var slug := Slug.Slugify(cfg.lower, name);
            if RunsTaken(cfg, db, name, {}) then db' == db && outcome == Conflict
            else outcome == Done(db.nextId)
                 && db' == db.(teams := db.teams[db.nextId := Team(name, slug, info)], nextId := db.nextId + 1)
  {
    hide MembersOk, BindingsOk, RolesOk, AssignmentsOk, Slug.SlugOfLowered, Slug.EffectiveRuns;
    var slug := Slug.Slugify(cfg.lower, name);
    LikeMeansSameSlug(cfg, db, name);
    CreateTeamKeeps(cfg, db, name, info);
    forall i | i in db.teams
      ensures i in TeamsLike(db, name, slug) <==>
              Slug.EffectiveRuns(cfg.lower(db.teams[i].name)) == Slug.EffectiveRuns(cfg.lower(name))
    {
      Slug.SlugCollision(cfg.lower(db.teams[i].name), cfg.lower(name));
    }
    if TeamsLike(db, name, slug) == {} {
      EmptyIsNot(db, name, slug, info, cfg);
    }
  }

  lemma EmptyIsNot(db: Db, name: string, slug: string, info: TeamInfo, cfg: Config)
    requires slug == Slug.Slugify(cfg.lower, name) && TeamsLike(db, name, slug) == {}
    ensures CreateTeam(cfg, db, name, info).1 == Done(db.nextId)
    ensures CreateTeam(cfg, db, name, info).0
         == db.(teams := db.teams[db.nextId := Team(name, slug, info)], nextId := db.nextId + 1)
    ensures forall i :: i !in TeamsLike(db, name, slug)
  {
    hide Slug.Slugify;
  }

  // ---------------------------------------------------------------------------
  // What each request does to the relations the tables stand for

  function MemberPairs(db: Db): set<(nat, string)> {
    set i | i in db.members :: (db.members[i].teamId, db.members[i].user)
  }

  function RolePairs(db: Db): set<(nat, nat)> {
    set i | i in db.bindings :: (db.bindings[i].teamId, db.bindings[i].roleId)
  }

  function Grants(db: Db): set<(string, nat, ScopeType)> {
    set i | i in db.assignments :: (db.assignments[i].login, db.assignments[i].roleId, db.assignments[i].scopeType)
  }

  /** Adding a member is refused exactly for a missing team or a present member; otherwise the
      table gains that row and nothing else changes, and removing it again restores the table. */
  lemma AddMemberEffect(cfg: Config, db: Db, teamId: nat, user: string)
    requires Inv(cfg, db)
    ensures var (db', outcome) := Serve(cfg, db, ReqAddMember(teamId, user));
            && (outcome == NotFound <==> teamId !in db.teams)
            && (outcome == Conflict <==> teamId in db.teams && (teamId, user) in MemberPairs(db))
            && (outcome != NotFound && outcome != Conflict ==>
                  && outcome == Done(db.nextId)
                  && db' == db.(members := db.members[db.nextId := Membership(teamId, user)], nextId := db.nextId + 1)
                  && MemberPairs(db') == MemberPairs(db) + {(teamId, user)}
                  && Serve(cfg, db', ReqRemoveMember(teamId, user)).0 == db.(nextId := db.nextId + 1))
  {
    hide TeamsOk, BindingsOk, RolesOk, AssignmentsOk;
    var (db', outcome) := AddMember(db, teamId, user);
    MembersUnique(db, teamId, user);
    MemberListed(db, teamId, user);
    if outcome.Done? {
      forall i | i in db.members ensures i !in MembersOf(db', teamId, user) && i != db.nextId {
        assert i !in MembersOf(db, teamId, user);
      }
      assert MembersOf(db', teamId, user) == {db.nextId};
      assert db'.members - {db.nextId} == db.members;
      forall x | x in MemberPairs(db) ensures x in MemberPairs(db') {
        var i :| i in db.members && x == (db.members[i].teamId, db.members[i].user);
        assert db'.members[i] == db.members[i];
      }
      assert db'.members[db.nextId] == Membership(teamId, user);
    }
  }

  lemma MemberListed(db: Db, teamId: nat, user: string)
    ensures (teamId, user) in MemberPairs(db) <==> MembersOf(db, teamId, user) != {}
  {
    if (teamId, user) in MemberPairs(db) {
      var i :| i in db.members && (teamId, user) == (db.members[i].teamId, db.members[i].user);
      assert i in MembersOf(db, teamId, user);
    }
  }

  /** Removing a member takes exactly that pair out of the relation. */
  lemma RemoveMemberEffect(cfg: Config, db: Db, teamId: nat, user: string)
    requires Inv(cfg, db)
    ensures var (db', outcome) := Serve(cfg, db, ReqRemoveMember(teamId, user));
            && (outcome == NotFound <==> (teamId, user) !in MemberPairs(db))
            && (outcome != NotFound ==> outcome == Done(teamId))
            && MemberPairs(db') == MemberPairs(db) - {(teamId, user)}
            && db' == db.(members := db'.members)
            && (forall m :: m in db'.members <==> m in db.members && db.members[m] != Membership(teamId, user))
            && (forall m :: m in db'.members ==> db'.members[m] == db.members[m])
  {
    hide TeamsOk, MembersOk, BindingsOk, RolesOk, AssignmentsOk;
    var (db', outcome) := RemoveMember(db, teamId, user);
    MembersUnique(db, teamId, user);
    MemberListed(db, teamId, user);
    forall x | x in MemberPairs(db) && x != (teamId, user) ensures x in MemberPairs(db') {
      var i :| i in db.members && x == (db.members[i].teamId, db.members[i].user);
      assert i !in MembersOf(db, teamId, user);
      assert i in db'.members && db'.members[i] == db.members[i];
    }
  }

  lemma BindingListed(db: Db, teamId: nat, roleId: nat)
    ensures (teamId, roleId) in RolePairs(db) <==> BindingsOf(db, teamId, roleId) != {}
  {
    if (teamId, roleId) in RolePairs(db) {
      var i :| i in db.bindings && (teamId, roleId) == (db.bindings[i].teamId, db.bindings[i].roleId);
      assert i in BindingsOf(db, teamId, roleId);
    }
  }

  /** Binding a role to a team is refused exactly when either is missing or the pair is bound;
      otherwise the table gains that row, organisation included, and nothing else changes, and
      taking the binding off again restores the table. */
  lemma AssignTeamRoleEffect(cfg: Config, db: Db, teamId: nat, roleId: nat, orgSlug: Option<string>)
    requires Inv(cfg, db)
    ensures var (db', outcome) := Serve(cfg, db, ReqAssignTeamRole(teamId, roleId, orgSlug));
            && (outcome == NotFound <==> teamId !in db.teams || roleId !in db.roles)
            && (outcome == Conflict <==> teamId in db.teams && roleId in db.roles && (teamId, roleId) in RolePairs(db))
            && (outcome != NotFound && outcome != Conflict ==>
                  && outcome == Done(db.nextId)
                  && db' == db.(bindings := db.bindings[db.nextId := Binding(teamId, roleId, orgSlug)],
                                nextId := db.nextId + 1)
                  && RolePairs(db') == RolePairs(db) + {(teamId, roleId)}
                  && Serve(cfg, db', ReqRemoveTeamRole(teamId, roleId)).0 == db.(nextId := db.nextId + 1))
  {
    hide TeamsOk, MembersOk, BindingsOk, RolesOk, AssignmentsOk, BindingsOf;
    var (db', outcome) := AssignTeamRole(db, teamId, roleId, orgSlug);
    BindingsUnique(db, teamId, roleId);
    BindingListed(db, teamId, roleId);
    if outcome.Done? {
      OnlyNewBinding(db, teamId, roleId, orgSlug);
      forall x | x in RolePairs(db) ensures x in RolePairs(db') {
        var i :| i in db.bindings && x == (db.bindings[i].teamId, db.bindings[i].roleId);
        assert db'.bindings[i] == db.bindings[i];
      }
      assert db'.bindings[db.nextId] == Binding(teamId, roleId, orgSlug);
    }
  }

  lemma OnlyNewBinding(db: Db, teamId: nat, roleId: nat, orgSlug: Option<string>)
    requires BindingsOf(db, teamId, roleId) == {} && db.nextId !in db.bindings
    ensures var db' := db.(bindings := db.bindings[db.nextId := Binding(teamId, roleId, orgSlug)], nextId := db.nextId + 1);
            BindingsOf(db', teamId, roleId) == {db.nextId} && db'.bindings - {db.nextId} == db.bindings
  {
    forall b | b in db.bindings ensures db.bindings[b].teamId != teamId || db.bindings[b].roleId != roleId {
      assert b !in BindingsOf(db, teamId, roleId);
    }
  }

  lemma RemoveTeamRoleEffect(cfg: Config, db: Db, teamId: nat, roleId: nat)
    requires Inv(cfg, db)
    ensures var (db', outcome) := Serve(cfg, db, ReqRemoveTeamRole(teamId, roleId));
            && (outcome == NotFound <==> (teamId, roleId) !in RolePairs(db))
            && (outcome != NotFound ==> outcome == Done(teamId))
            && RolePairs(db') == RolePairs(db) - {(teamId, roleId)}
            && db' == db.(bindings := db'.bindings)
            && (forall b :: b in db'.bindings <==>
                  b in db.bindings && !(db.bindings[b].teamId == teamId && db.bindings[b].roleId == roleId))
            && (forall b :: b in db'.bindings ==> db'.bindings[b] == db.bindings[b])
  {
    hide TeamsOk, MembersOk, BindingsOk, RolesOk, AssignmentsOk;
    var (db', outcome) := RemoveTeamRole(db, teamId, roleId);
    BindingsUnique(db, teamId, roleId);
    BindingListed(db, teamId, roleId);
    forall x | x in RolePairs(db) && x != (teamId, roleId) ensures x in RolePairs(db') {
      var i :| i in db.bindings && x == (db.bindings[i].teamId, db.bindings[i].roleId);
      assert i !in BindingsOf(db, teamId, roleId);
      assert i in db'.bindings && db'.bindings[i] == db.bindings[i];
    }
  }

  /** A grant is created exactly when the named role exists, the login does not hold it in that
      scope type yet, and the scope value fits; then the grant relation gains it and nothing else. */
  lemma CreateAssignmentEffect(cfg: Config, db: Db, roleId: nat, login: string, scopeType: ScopeType, scopeValue: Option<string>)
    requires Inv(cfg, db) && roleId in db.roles
    ensures var (db', outcome) := Serve(cfg, db, ReqCreateAssignment(login, db.roles[roleId].name, scopeType, scopeValue));
            && (outcome == Conflict <==> (login, roleId, scopeType) in Grants(db))
            && (outcome.Done? <==>
                  (login, roleId, scopeType) !in Grants(db) && (scopeType == Global <==> scopeValue == None))
            && (outcome.Done? ==>
                  && outcome == Done(db.nextId)
                  && db' == db.(assignments := db.assignments[db.nextId := Assignment(login, roleId, scopeType, scopeValue, true)],
                                nextId := db.nextId + 1)
                  && Grants(db') == Grants(db) + {(login, roleId, scopeType)}
                  && Serve(cfg, db', ReqDeleteAssignment(db.nextId)).0 == db.(nextId := db.nextId + 1))
  {
    hide TeamsOk, MembersOk, BindingsOk, AssignmentsOk, SameKey, AssignmentsLike, Grants;
    var name := db.roles[roleId].name;
    OneRoleOfThatName(cfg, db, roleId);
    CreateAssignmentKeeps(cfg, db, login, name, scopeType, scopeValue);
    AssignmentsUnique(db, login, roleId, scopeType);
    GrantListed(db, login, roleId, scopeType);
    NewGrant(db, Assignment(login, roleId, scopeType, scopeValue, true));
  }

  lemma NewGrant(db: Db, row: Assignment)
    requires Below(db.assignments.Keys, db.nextId)
    ensures var db' := db.(assignments := db.assignments[db.nextId := row], nextId := db.nextId + 1);
            && Grants(db') == Grants(db) + {(row.login, row.roleId, row.scopeType)}
            && DeleteAssignment(db', db.nextId).0 == db.(nextId := db.nextId + 1)
  {
    var db' := db.(assignments := db.assignments[db.nextId := row], nextId := db.nextId + 1);
    forall x | x in Grants(db) ensures x in Grants(db') {
      var i :| i in db.assignments
        && x == (db.assignments[i].login, db.assignments[i].roleId, db.assignments[i].scopeType);
      assert db'.assignments[i] == db.assignments[i];
    }
    assert db'.assignments[db.nextId] == row;
    assert db'.assignments - {db.nextId} == db.assignments;
  }

  lemma OneRoleOfThatName(cfg: Config, db: Db, roleId: nat)
    requires RolesOk(cfg, db.roles) && roleId in db.roles
    ensures RolesNamed(db, db.roles[roleId].name) == {roleId}
  {
  }

  lemma GrantListed(db: Db, login: string, roleId: nat, scopeType: ScopeType)
    ensures (login, roleId, scopeType) in Grants(db) <==> AssignmentsLike(db, login, roleId, scopeType) != {}
  {
    if (login, roleId, scopeType) in Grants(db) {
      var i :| i in db.assignments
        && (login, roleId, scopeType) == (db.assignments[i].login, db.assignments[i].roleId, db.assignments[i].scopeType);
      assert i in AssignmentsLike(db, login, roleId, scopeType);
    }
  }

  /** A grant is deleted exactly when it exists, and nothing else changes; a role name that no role
      bears is not granted. */
  lemma DeleteAssignmentEffect(cfg: Config, db: Db, id: nat, login: string, name: string, scopeType: ScopeType,
                               scopeValue: Option<string>)
    requires Inv(cfg, db)
    ensures Serve(cfg, db, ReqDeleteAssignment(id))
         == if id in db.assignments then (db.(assignments := db.assignments - {id}), Done(id)) else (db, NotFound)
    ensures (forall i :: i in db.roles ==> db.roles[i].name != name) ==>
              Serve(cfg, db, ReqCreateAssignment(login, name, scopeType, scopeValue)) == (db, NotFound)
  {
    hide Core, AssignmentsLike, InsertAssignment;
    if forall i :: i in db.roles ==> db.roles[i].name != name {
      NoRoleNamed(db, name);
    }
  }

  lemma NoRoleNamed(db: Db, name: string)
    requires forall i :: i in db.roles ==> db.roles[i].name != name
    ensures RolesNamed(db, name) == {}
  {
  }

  /** A custom role is created exactly when its name is neither reserved nor taken and every
      permission is well formed; it then holds the requested permissions, as a set. */
  lemma CreateRoleEffect(cfg: Config, db: Db, name: string, displayName: string, description: Option<string>,
                         permissions: seq<string>)
    requires Inv(cfg, db)
    ensures var (db', outcome) := Serve(cfg, db, ReqCreateRole(name, displayName, description, permissions));
            && (outcome == Conflict <==> name in cfg.reserved || RolesNamed(db, name) != {})
            && (outcome.Done? <==>
                  && name !in cfg.reserved && RolesNamed(db, name) == {}
                  && forall p :: p in permissions ==> Permissions.WellFormed(cfg.catalog, p))
            && (outcome != Conflict && !outcome.Done? ==> outcome.Unprocessable? && outcome.errors != [] && db' == db)
            && (outcome.Done? ==>
                  && outcome == Done(db.nextId) && db.nextId in db'.roles
                  && var role := db'.roles[db.nextId];
                  && db' == db.(roles := db.roles[db.nextId := role], nextId := db.nextId + 1)
                  && role.name == name && !role.isSystem
                  && role.displayName == displayName && role.description == description
                  && Permissions.StrictlySorted(role.permissions)
                  && forall p :: p in role.permissions <==> p in permissions)
  {
    hide TeamsOk, MembersOk, BindingsOk, RolesOk, AssignmentsOk, RolesNamed, Permissions.WellFormed;
    RolesUnique(cfg, db, name);
    Permissions.ValidExactlyWhenWellFormed(cfg.catalog, permissions);
    Permissions.SortedDistinctIsSorted(permissions);
  }

  /** An update of a custom role replaces what the request names, keeps the rest, and fails as a
      whole when a permission is malformed. */
  lemma UpdateRoleEffect(cfg: Config, db: Db, id: nat, change: RoleChange)
    requires id in db.roles && !db.roles[id].isSystem
    ensures var (db', outcome) := Serve(cfg, db, ReqUpdateRole(id, change));
            && (outcome.Done? <==> (change.permissions.Some? ==>
                  forall p :: p in change.permissions.value ==> Permissions.WellFormed(cfg.catalog, p)))
            && (!outcome.Done? ==> outcome.Unprocessable? && outcome.errors != [] && db' == db)
            && (outcome.Done? ==>
                  && outcome == Done(id) && id in db'.roles
                  && db' == db.(roles := db.roles[id := db'.roles[id]])
                  && var before, after := db.roles[id], db'.roles[id];
                  && after.name == before.name && !after.isSystem
                  && after.displayName == (if change.displayName.Some? then change.displayName.value else before.displayName)
                  && after.description == (if change.description.Some? then change.description else before.description)
                  && (change.permissions.None? ==> after.permissions == before.permissions)
                  && (change.permissions.Some? ==>
                        Permissions.StrictlySorted(after.permissions)
                        && forall p :: p in after.permissions <==> p in change.permissions.value))
  {
    hide Permissions.WellFormed;
    if change.permissions.Some? {
      Permissions.ValidExactlyWhenWellFormed(cfg.catalog, change.permissions.value);
      Permissions.SortedDistinctIsSorted(change.permissions.value);
    }
  }

  /** A role that is not there, or a system role, is neither updated nor deleted. */
  lemma RoleRequestsRefused(cfg: Config, db: Db, id: nat, change: RoleChange)
    requires id in db.roles ==> db.roles[id].isSystem
    ensures var refusal := if id in db.roles then Forbidden else NotFound;
            Serve(cfg, db, ReqUpdateRole(id, change)) == (db, refusal)
            && Serve(cfg, db, ReqDeleteRole(id)) == (db, refusal)
  {
  }

  /** A renamed team is refused exactly when another team's name has the same alphanumeric runs;
      otherwise its row takes what the request names and every other row stays. */
  lemma {:induction false} UpdateTeamEffect(cfg: Config, db: Db, id: nat, change: TeamChange)
    requires Inv(cfg, db) && id in db.teams
    ensures var (db', outcome) := Serve(cfg, db, ReqUpdateTeam(id, change));
            && (outcome == Conflict <==> change.name.Some? && RunsTaken(cfg, db, change.name.value, {id}))
            && (outcome == Done(id) <==> outcome != Conflict)
            && (outcome == Done(id) ==>
                  && id in db'.teams && db' == db.(teams := db.teams[id := db'.teams[id]])
                  && db'.teams[id].name == (if change.name.Some? then change.name.value else db.teams[id].name)
                  && db'.teams[id].slug == Slug.Slugify(cfg.lower, db'.teams[id].name)
                  && (var before, after := db.teams[id].info, db'.teams[id].info;
                      && after.description == (if change.description.Some? then change.description else before.description)
                      && after.githubOrg == (if change.githubOrg.Some? then change.githubOrg else before.githubOrg)
                      && after.githubTeamSlug == (if change.githubTeamSlug.Some? then change.githubTeamSlug else before.githubTeamSlug)
                      && after.autoSync == (if change.autoSync.Some? then change.autoSync.value else before.autoSync)))
            && (outcome == Conflict ==> db' == db)
  {
    hide MembersOk, BindingsOk, RolesOk, AssignmentsOk, Slug.SlugOfLowered, Slug.EffectiveRuns;
    UpdateTeamKeeps(cfg, db, id, change);
    if change.name.Some? {
      var name := change.name.value;
      var slug := Slug.Slugify(cfg.lower, name);
      LikeMeansSameSlug(cfg, db, name);
      AtMostOne(TeamsLike(db, name, slug) - {id});
      forall i | i in db.teams
        ensures i in TeamsLike(db, name, slug) <==>
                Slug.EffectiveRuns(cfg.lower(db.teams[i].name)) == Slug.EffectiveRuns(cfg.lower(name))
      {
        Slug.SlugCollision(cfg.lower(db.teams[i].name), cfg.lower(name));
      }
      if TeamsLike(db, name, slug) - {id} == {} {
        forall i | i in db.teams && i != id ensures i !in TeamsLike(db, name, slug) {
          assert i !in TeamsLike(db, name, slug) - {id};
        }
      } else {
        var i :| i in TeamsLike(db, name, slug) - {id};
        assert i in db.teams && i != id;
      }
    }
  }

  /** A team that is not there is neither updated nor deleted. */
  lemma TeamRequestsRefused(cfg: Config, db: Db, id: nat, change: TeamChange)
    requires id !in db.teams
    ensures Serve(cfg, db, ReqUpdateTeam(id, change)) == (db, NotFound)
    ensures Serve(cfg, db, ReqDeleteTeam(id)) == (db, NotFound)
  {
    hide Slug.Slugify;
  }

  /** Deleting a team removes the team, its memberships and its bindings, and nothing else. */
  lemma DeleteTeamRemovesItsOwn(cfg: Config, db: Db, id: nat)
    requires id in db.teams
    ensures var (db', outcome) := Serve(cfg, db, ReqDeleteTeam(id));
            && outcome == Done(id)
            && db'.teams == db.teams - {id}
            && (forall m :: m in db'.members <==> m in db.members && db.members[m].teamId != id)
            && (forall m :: m in db'.members ==> db'.members[m] == db.members[m])
            && (forall b :: b in db'.bindings <==> b in db.bindings && db.bindings[b].teamId != id)
            && (forall b :: b in db'.bindings ==> db'.bindings[b] == db.bindings[b])
            && db'.roles == db.roles && db'.assignments == db.assignments && db'.nextId == db.nextId
  {
  }

  /** The request concerns this team only. */
  predicate OfTeam(r: Request, id: nat) {
    match r
    case ReqUpdateTeam(t, _) => t == id
    case ReqAddMember(t, _) => t == id
    case ReqRemoveMember(t, _) => t == id
    case ReqAssignTeamRole(t, _, _) => t == id
    case ReqRemoveTeamRole(t, _) => t == id
    case _ => false
  }

  ghost predicate TeamsElsewhere(before: map<nat, Team>, after: map<nat, Team>, id: nat) {
    forall i :: i != id ==> (i in after <==> i in before) && (i in before ==> after[i] == before[i])
  }

  ghost predicate MembersElsewhere(before: map<nat, Membership>, after: map<nat, Membership>, id: nat) {
    && (forall m :: m in before ==> m in after && after[m] == before[m])
    && (forall m :: m in after && m !in before ==> after[m].teamId == id)
  }

  ghost predicate BindingsElsewhere(before: map<nat, Binding>, after: map<nat, Binding>, id: nat) {
    && (forall b :: b in before ==> b in after && after[b] == before[b])
    && (forall b :: b in after && b !in before ==> after[b].teamId == id)
  }

  /** The two databases differ at most in this team, its memberships and its bindings. */
  ghost predicate SameElsewhere(before: Db, after: Db, id: nat) {
    && after.roles == before.roles && after.assignments == before.assignments
    && TeamsElsewhere(before.teams, after.teams, id)
    && MembersElsewhere(before.members, after.members, id)
    && BindingsElsewhere(before.bindings, after.bindings, id)
  }

  /** Nothing in the database refers to this team yet. */
  ghost predicate NoTrace(db: Db, id: nat) {
    && id !in db.teams
    && (forall m :: m in db.members ==> db.members[m].teamId != id)
    && (forall b :: b in db.bindings ==> db.bindings[b].teamId != id)
  }

  lemma TeamRequestStaysInside(cfg: Config, before: Db, db: Db, r: Request, id: nat)
    requires Core(cfg, db) && id in db.teams && NoTrace(before, id) && SameElsewhere(before, db, id) && OfTeam(r, id)
    ensures id in Serve(cfg, db, r).0.teams && SameElsewhere(before, Serve(cfg, db, r).0, id)
  {
    hide Core, SameElsewhere, NoTrace, UpdateTeam, AddMember, RemoveMember, AssignTeamRole, RemoveTeamRole;
    match r
    case ReqUpdateTeam(_, change) => UpdateTeamStaysInside(cfg, before, db, id, change);
    case ReqAddMember(_, user) => MemberStaysInside(cfg, before, db, id, user);
    case ReqRemoveMember(_, user) => MemberStaysInside(cfg, before, db, id, user);
    case ReqAssignTeamRole(_, roleId, orgSlug) => BindingStaysInside(cfg, before, db, id, roleId, orgSlug);
    case ReqRemoveTeamRole(_, roleId) => BindingStaysInside(cfg, before, db, id, roleId, None);
  }

  lemma UpdateTeamStaysInside(cfg: Config, before: Db, db: Db, id: nat, change: TeamChange)
    requires id in db.teams && SameElsewhere(before, db, id)
    ensures var db' := UpdateTeam(cfg, db, id, change).0; id in db'.teams && SameElsewhere(before, db', id)
  {
    hide Slug.Slugify, TeamsLike, ChangedInfo, TeamsElsewhere, MembersElsewhere, BindingsElsewhere;
    var db' := UpdateTeam(cfg, db, id, change).0;
    OneTeamWritten(cfg, db, id, change);
    PutTeamElsewhere(before.teams, db.teams, id, db'.teams[id]);
  }

  lemma OneTeamWritten(cfg: Config, db: Db, id: nat, change: TeamChange)
    requires id in db.teams
    ensures var db' := UpdateTeam(cfg, db, id, change).0;
            id in db'.teams && db' == db.(teams := db.teams[id := db'.teams[id]])
  {
    hide Slug.Slugify, TeamsLike, ChangedInfo;
  }

  lemma PutTeamElsewhere(before: map<nat, Team>, after: map<nat, Team>, id: nat, team: Team)
    requires TeamsElsewhere(before, after, id)
    ensures TeamsElsewhere(before, after[id := team], id)
  {
  }

  lemma MemberStaysInside(cfg: Config, before: Db, db: Db, id: nat, user: string)
    requires Core(cfg, db) && id in db.teams && NoTrace(before, id) && SameElsewhere(before, db, id)
    ensures var db' := AddMember(db, id, user).0; id in db'.teams && SameElsewhere(before, db', id)
    ensures var db' := RemoveMember(db, id, user).0; id in db'.teams && SameElsewhere(before, db', id)
  {
    hide TeamsOk, MembersOk, BindingsOk, RolesOk, AssignmentsOk, TeamsElsewhere, MembersElsewhere, BindingsElsewhere,
         MembersOf;
    PutMemberElsewhere(before.members, db.members, id, db.nextId, Membership(id, user));
    forall m | m in MembersOf(db, id, user) ensures m in db.members && db.members[m].teamId == id {
      MemberOf(db, id, user, m);
    }
    DropMembersElsewhere(before.members, db.members, id, MembersOf(db, id, user));
  }

  lemma MemberOf(db: Db, id: nat, user: string, m: nat)
    requires m in MembersOf(db, id, user)
    ensures m in db.members && db.members[m].teamId == id
  {
  }

  lemma PutMemberElsewhere(before: map<nat, Membership>, after: map<nat, Membership>, id: nat, m: nat, row: Membership)
    requires MembersElsewhere(before, after, id) && m !in after && row.teamId == id
    ensures MembersElsewhere(before, after[m := row], id)
  {
  }

  lemma DropMembersElsewhere(before: map<nat, Membership>, after: map<nat, Membership>, id: nat, gone: set<nat>)
    requires MembersElsewhere(before, after, id) && forall m :: m in before ==> before[m].teamId != id
    requires forall m :: m in gone ==> m in after && after[m].teamId == id
    ensures MembersElsewhere(before, after - gone, id)
  {
  }

  lemma BindingStaysInside(cfg: Config, before: Db, db: Db, id: nat, roleId: nat, orgSlug: Option<string>)
    requires Core(cfg, db) && id in db.teams && NoTrace(before, id) && SameElsewhere(before, db, id)
    ensures var db' := AssignTeamRole(db, id, roleId, orgSlug).0; id in db'.teams && SameElsewhere(before, db', id)
    ensures var db' := RemoveTeamRole(db, id, roleId).0; id in db'.teams && SameElsewhere(before, db', id)
  {
    hide TeamsOk, MembersOk, BindingsOk, RolesOk, AssignmentsOk, TeamsElsewhere, MembersElsewhere, BindingsElsewhere,
         BindingsOf;
    PutBindingElsewhere(before.bindings, db.bindings, id, db.nextId, Binding(id, roleId, orgSlug));
    forall b | b in BindingsOf(db, id, roleId) ensures b in db.bindings && db.bindings[b].teamId == id {
      BindingOf(db, id, roleId, b);
    }
    DropBindingsElsewhere(before.bindings, db.bindings, id, BindingsOf(db, id, roleId));
  }

  lemma BindingOf(db: Db, id: nat, roleId: nat, b: nat)
    requires b in BindingsOf(db, id, roleId)
    ensures b in db.bindings && db.bindings[b].teamId == id
  {
  }

  lemma PutBindingElsewhere(before: map<nat, Binding>, after: map<nat, Binding>, id: nat, b: nat, row: Binding)
    requires BindingsElsewhere(before, after, id) && b !in after && row.teamId == id
    ensures BindingsElsewhere(before, after[b := row], id)
  {
  }

  lemma DropBindingsElsewhere(before: map<nat, Binding>, after: map<nat, Binding>, id: nat, gone: set<nat>)
    requires BindingsElsewhere(before, after, id) && forall b :: b in before ==> before[b].teamId != id
    requires forall b :: b in gone ==> b in after && after[b].teamId == id
    ensures BindingsElsewhere(before, after - gone, id)
  {
  }

  lemma {:induction false} TeamRequestsStayInside(cfg: Config, before: Db, db: Db, requests: seq<Request>, id: nat)
    requires Core(cfg, db) && id in db.teams && NoTrace(before, id) && SameElsewhere(before, db, id)
    requires forall i :: 0 <= i < |requests| ==> OfTeam(requests[i], id)
    ensures id in Run(cfg, db, requests).teams && SameElsewhere(before, Run(cfg, db, requests), id)
    decreases |requests|
  {
    hide Core, NoTrace, SameElsewhere, Serve, OfTeam;
    if requests != [] {
      TeamRequestStaysInside(cfg, before, db, requests[0], id);
      ServeKeepsCore(cfg, db, requests[0]);
      TeamRequestsStayInside(cfg, before, Serve(cfg, db, requests[0]).0, requests[1..], id);
    }
  }

  lemma DeleteLeavesTheRest(cfg: Config, before: Db, db: Db, id: nat)
    requires NoTrace(before, id) && SameElsewhere(before, db, id) && id in db.teams
    ensures DeleteTeam(db, id) == (before.(nextId := db.nextId), Done(id))
  {
    hide DeleteTeam;
    DeleteTeamRemovesItsOwn(cfg, db, id);
    var db' := DeleteTeam(db, id).0;
    assert db'.teams == before.teams;
    assert db'.members == before.members;
    assert db'.bindings == before.bindings;
  }

  lemma NewTeamIsElsewhere(cfg: Config, db: Db, name: string, info: TeamInfo)
    requires Core(cfg, db) && CreateTeam(cfg, db, name, info).1.Done?
    ensures NoTrace(db, db.nextId)
    ensures var db' := CreateTeam(cfg, db, name, info).0;
            db.nextId in db'.teams && SameElsewhere(db, db', db.nextId)
  {
    hide Slug.Slugify, TeamsLike, RolesOk, AssignmentsOk;
  }

  /** A team leaves no trace: create it, let any requests rename it and change its members and
      roles, delete it, and every table is what it was. */
  lemma {:induction false} TeamLeavesNoTrace(cfg: Config, db: Db, name: string, info: TeamInfo, requests: seq<Request>)
    requires Inv(cfg, db) && CreateTeam(cfg, db, name, info).1.Done?
    requires forall i :: 0 <= i < |requests| ==> OfTeam(requests[i], db.nextId)
    ensures var used := Run(cfg, Serve(cfg, db, ReqCreateTeam(name, info)).0, requests);
            Serve(cfg, used, ReqDeleteTeam(db.nextId)) == (db.(nextId := used.nextId), Done(db.nextId))
  {
    hide Core, CreateTeam, DeleteTeam, Run, OfTeam, NoTrace, SameElsewhere;
    CreateTeamKeeps(cfg, db, name, info);
    NewTeamIsElsewhere(cfg, db, name, info);
    TeamRequestsStayInside(cfg, db, CreateTeam(cfg, db, name, info).0, requests, db.nextId);
    DeleteLeavesTheRest(cfg, db, Run(cfg, CreateTeam(cfg, db, name, info).0, requests), db.nextId);
  }

  /** A role delete commits exactly when the role is custom and no assignment row refers to it,
      so a delete that commits has revoked nothing. */
  lemma DeleteRoleCommitsExactlyWhen(cfg: Config, db: Db, id: nat)
    requires Inv(cfg, db)
    ensures var (db', outcome) := Serve(cfg, db, ReqDeleteRole(id));
            && (outcome == Done(id) <==>
                  id in db.roles && !db.roles[id].isSystem
                  && forall i :: i in db.assignments ==> db.assignments[i].roleId != id)
            && db'.assignments == db.assignments && db'.members == db.members && db'.teams == db.teams
            && db'.nextId == db.nextId && (outcome != Done(id) ==> db' == db)
            && (outcome == Done(id) ==>
                  && db'.roles == db.roles - {id}
                  && (forall b :: b in db'.bindings <==> b in db.bindings && db.bindings[b].roleId != id)
                  && forall b :: b in db'.bindings ==> db'.bindings[b] == db.bindings[b])
  {
    hide Inv;
    forall i | i in db.assignments
      ensures i in AssignmentsOfRole(db, id) <==> db.assignments[i].roleId == id
    {
    }
  }

  /** From any deployment: a custom role that has been granted to someone cannot be deleted, and
      the attempt changes nothing. */
  lemma {:induction false} GrantedRoleCannotBeDeleted(cfg: Config, start: Db, name: string, login: string)
    requires Init(start) && name !in cfg.reserved && RolesNamed(start, name) == {}
    ensures var create := ReqCreateRole(name, name, None, []);
            var grant := ReqCreateAssignment(login, name, Global, None);
            var db := Run(cfg, start, [create, grant]);
            && start.nextId in db.roles && db.roles[start.nextId].name == name && !db.roles[start.nextId].isSystem
            && Serve(cfg, db, ReqDeleteRole(start.nextId)) == (db, Violation)
  {
    hide Core, Permissions.Outcome, Permissions.WellFormed;
    var create := ReqCreateRole(name, name, None, []);
    var grant := ReqCreateAssignment(login, name, Global, None);
    InitInv(cfg, start);
    CreateRoleEffect(cfg, start, name, name, None, []);
    var created := Serve(cfg, start, create).0;
    ServeKeepsInv(cfg, start, create);
    CreateAssignmentEffect(cfg, created, start.nextId, login, Global, None);
    var granted := Serve(cfg, created, grant).0;
    RunTwo(cfg, start, create, grant);
    assert (login, start.nextId, Global) in Grants(granted);
    GrantListed(granted, login, start.nextId, Global);
    assert AssignmentsLike(granted, login, start.nextId, Global) <= AssignmentsOfRole(granted, start.nextId);
  }

  lemma RunTwo(cfg: Config, db: Db, first: Request, second: Request)
    ensures Run(cfg, db, [first, second]) == Serve(cfg, Serve(cfg, db, first).0, second).0
  {
    hide Serve;
    assert [first, second][1..] == [second] && [second][1..] == [];
    assert Run(cfg, Serve(cfg, db, first).0, [second]) == Run(cfg, Serve(cfg, Serve(cfg, db, first).0, second).0, []);
  }

  /** The duplicate lookup ignores the scope value: on a table with two scopes of one type for a
      login and role, which the unique index allows, it finds several rows. Requests served one
      at a time never reach such a table. */
  lemma DuplicateLookupNeedsReachableTable() returns (db: Db)
    ensures forall cfg, start, requests :: Init(start) ==> Run(cfg, start, requests) != db
    ensures forall i, j :: i in db.assignments && j in db.assignments && SameKey(db.assignments[i], db.assignments[j]) ==> i == j
    ensures CreateAssignment(db, "ann", "auditor", Org, Some("c")).1 == ManyRows
  {
    db := Db(
      map[1 := Role("auditor", "Auditor", None, [], false)], map[], map[], map[],
      map[2 := Assignment("ann", 1, Org, Some("a"), true), 3 := Assignment("ann", 1, Org, Some("b"), true)], 4);
    assert RolesNamed(db, "auditor") == {1};
    assert AssignmentsLike(db, "ann", 1, Org) == {2, 3};
    assert "a"[0] != "b"[0];
    assert SameGrant(db.assignments[2], db.assignments[3]);
    forall cfg, start, requests | Init(start) ensures Run(cfg, start, requests) != db {
      InitInv(cfg, start);
      RunKeepsInv(cfg, start, requests);
    }
  }
}
