/** The admin endpoints that look up first and insert afterwards, with other requests in between
    (backend/app/routers/admin_teams.py, admin_roles.py and admin.py). The lookups of one request
    are one step and its INSERT, with the commit, another; the constraints are all that holds
    between the two. */
module AdminRaces {
  import opened AdminStore
  import Permissions
  import Slug

  /** A row that has passed its endpoint's lookups and is about to be inserted. */
  datatype Row =
    | TeamRow(team: Team)
    | MemberRow(member: Membership)
    | BindingRow(binding: Binding)
    | RoleRow(role: Role)
    | GrantRow(grant: Assignment)

  datatype Checked = Stop(outcome: Outcome) | Go(row: Row)

  predicate Creates(r: Request) {
    r.ReqCreateTeam? || r.ReqAddMember? || r.ReqAssignTeamRole? || r.ReqCreateRole? || r.ReqCreateAssignment?
  }

  /** scalar_one_or_none() must find nothing. */
  function Unless(found: set<nat>, row: Row): Checked {
    if |found| > 1 then Stop(ManyRows) else if found != {} then Stop(Conflict) else Go(row)
  }

  function Check(cfg: Config, db: Db, r: Request): Checked
    requires Creates(r)
  {
    match r
    case ReqCreateTeam(name, info) =>
      var slug := Slug.Slugify(cfg.lower, name);
      Unless(TeamsLike(db, name, slug), TeamRow(Team(name, slug, info)))
    case ReqAddMember(teamId, user) =>
      if teamId !in db.teams then Stop(NotFound)
      else Unless(MembersOf(db, teamId, user), MemberRow(Membership(teamId, user)))
    case ReqAssignTeamRole(teamId, roleId, orgSlug) =>
      if teamId !in db.teams || roleId !in db.roles then Stop(NotFound)
      else Unless(BindingsOf(db, teamId, roleId), BindingRow(Binding(teamId, roleId, orgSlug)))
    case ReqCreateRole(name, displayName, description, permissions) =>
      if name in cfg.reserved then Stop(Conflict)
      else if |RolesNamed(db, name)| > 1 then Stop(ManyRows)
      else if RolesNamed(db, name) != {} then Stop(Conflict)
      else (match Permissions.Outcome(cfg.catalog, permissions)
            case Invalid(errors) => Stop(Unprocessable(errors))
            case Valid(perms) => Go(RoleRow(Role(name, displayName, description, perms, false))))
    case ReqCreateAssignment(login, roleName, scopeType, scopeValue) =>
      var named := RolesNamed(db, roleName);
      if |named| > 1 then Stop(ManyRows)
      else if named == {} then Stop(NotFound)
      else
        var row := Assignment(login, Only(named), scopeType, scopeValue, true);
        Unless(AssignmentsLike(db, login, row.roleId, scopeType), GrantRow(row))
  }

  function Insert(db: Db, row: Row): Result {
    match row
    case TeamRow(team) => InsertTeam(db, team)
    case MemberRow(member) => InsertMember(db, member)
    case BindingRow(binding) => InsertBinding(db, binding)
    case RoleRow(role) => InsertRole(db, role)
    case GrantRow(grant) => InsertAssignment(db, grant)
  }

  /** `flights` holds the rows of the requests between their lookups and their insert. */
  datatype State = State(db: Db, flights: map<nat, Row>)

  datatype Event =
    | Whole(request: Request)
    | Look(id: nat, creation: Request)
    | Finish(id: nat)

  function Step(cfg: Config, s: State, e: Event): State {
    match e
    case Whole(r) => s.(db := Serve(cfg, s.db, r).0)
    case Look(id, r) =>
      if id in s.flights || !Creates(r) then s
      else (match Check(cfg, s.db, r)
            case Stop(_) => s
            case Go(row) => s.(flights := s.flights[id := row]))
    case Finish(id) =>
      if id in s.flights then State(Insert(s.db, s.flights[id]).0, s.flights - {id}) else s
  }

  function Run(cfg: Config, s: State, events: seq<Event>): State
    decreases |events|
  {
    if events == [] then s else Step(cfg, Run(cfg, s, events[..|events| - 1]), events[|events| - 1])
  }

  lemma RunSnoc(cfg: Config, s: State, events: seq<Event>, e: Event)
    ensures Run(cfg, s, events + [e]) == Step(cfg, Run(cfg, s, events), e)
  {
    hide Step;
    assert (events + [e])[..|events|] == events;
  }

  /** With nothing in between, the two steps are the endpoint. */
  lemma CheckThenInsertIsServe(cfg: Config, db: Db, r: Request)
    requires Creates(r)
    ensures Serve(cfg, db, r) == match Check(cfg, db, r)
                                 case Stop(outcome) => (db, outcome)
                                 case Go(row) => Insert(db, row)
  {
    hide Slug.Slugify, TeamsLike, MembersOf, BindingsOf, RolesNamed, AssignmentsLike, Permissions.Outcome,
         InsertTeam, InsertMember, InsertBinding, InsertRole, InsertAssignment;
  }

  /** In the machine too: looking up and finishing at once is serving the request, and leaves no
      flight behind. */
  lemma LookThenFinishIsServe(cfg: Config, s: State, id: nat, r: Request)
    requires Creates(r) && id !in s.flights
    ensures Step(cfg, Step(cfg, s, Look(id, r)), Finish(id)) == s.(db := Serve(cfg, s.db, r).0)
  {
    hide Check, Insert, Serve;
    CheckThenInsertIsServe(cfg, s.db, r);
    match Check(cfg, s.db, r)
    case Go(row) => assert s.flights[id := row] - {id} == s.flights;
    case Stop(_) =>
  }

  /** A team comes in exactly when no team has its name or its slug. */
  lemma TeamInsertExactlyWhen(db: Db, team: Team)
    ensures Insert(db, TeamRow(team)) ==
            if exists i :: i in db.teams && (db.teams[i].name == team.name || db.teams[i].slug == team.slug)
            then (db, Violation)
            else (db.(teams := db.teams[db.nextId := team], nextId := db.nextId + 1), Done(db.nextId))
  {
    if i :| i in db.teams && (db.teams[i].name == team.name || db.teams[i].slug == team.slug) {
      assert i in TeamsLike(db, team.name, team.slug);
    }
  }

  /** A membership comes in exactly when its team is there and the user is not in it. */
  lemma MemberInsertExactlyWhen(db: Db, member: Membership)
    ensures Insert(db, MemberRow(member)) ==
            if member.teamId !in db.teams || exists i :: i in db.members && db.members[i] == member
            then (db, Violation)
            else (db.(members := db.members[db.nextId := member], nextId := db.nextId + 1), Done(db.nextId))
  {
    if i :| i in db.members && db.members[i] == member {
      assert i in MembersOf(db, member.teamId, member.user);
    }
  }

  /** A binding comes in exactly when team and role are there and not bound to one another. */
  lemma BindingInsertExactlyWhen(db: Db, binding: Binding)
    ensures Insert(db, BindingRow(binding)) ==
            if binding.teamId !in db.teams || binding.roleId !in db.roles
               || exists i :: i in db.bindings && db.bindings[i].teamId == binding.teamId
                    && db.bindings[i].roleId == binding.roleId
            then (db, Violation)
            else (db.(bindings := db.bindings[db.nextId := binding], nextId := db.nextId + 1), Done(db.nextId))
  {
    if i :| i in db.bindings && db.bindings[i].teamId == binding.teamId && db.bindings[i].roleId == binding.roleId {
      assert i in BindingsOf(db, binding.teamId, binding.roleId);
    }
  }

  /** A role comes in exactly when no role has its name. */
  lemma RoleInsertExactlyWhen(db: Db, role: Role)
    ensures Insert(db, RoleRow(role)) ==
            if exists i :: i in db.roles && db.roles[i].name == role.name then (db, Violation)
            else (db.(roles := db.roles[db.nextId := role], nextId := db.nextId + 1), Done(db.nextId))
  {
    if i :| i in db.roles && db.roles[i].name == role.name {
      assert i in RolesNamed(db, role.name);
    }
  }

  function ValueOrEmpty(value: Option<string>): string {
    if value.Some? then value.value else ""
  }

  /** A grant comes in exactly when it has a scope value if and only if it is not global, its role
      is there, and no grant has its login, role, scope type and scope value, where no value counts
      as the empty one. */
  lemma GrantInsertExactlyWhen(db: Db, grant: Assignment)
    ensures Insert(db, GrantRow(grant)) ==
            if !(grant.scopeType == Global <==> grant.scopeValue == None) || grant.roleId !in db.roles
               || exists i :: i in db.assignments && db.assignments[i].login == grant.login
                    && db.assignments[i].roleId == grant.roleId && db.assignments[i].scopeType == grant.scopeType
                    && ValueOrEmpty(db.assignments[i].scopeValue) == ValueOrEmpty(grant.scopeValue)
            then (db, Violation)
            else (db.(assignments := db.assignments[db.nextId := grant], nextId := db.nextId + 1), Done(db.nextId))
  {
    forall i | i in db.assignments
      ensures SameKey(db.assignments[i], grant) <==>
              db.assignments[i].login == grant.login && db.assignments[i].roleId == grant.roleId
              && db.assignments[i].scopeType == grant.scopeType
              && ValueOrEmpty(db.assignments[i].scopeValue) == ValueOrEmpty(grant.scopeValue)
    {
    }
  }

  lemma {:induction false} ServeLast(cfg: Config, db: Db, requests: seq<Request>)
    requires requests != []
    ensures var m := |requests| - 1;
            AdminStore.Run(cfg, db, requests) == Serve(cfg, AdminStore.Run(cfg, db, requests[..m]), requests[m]).0
    decreases |requests|
  {
    hide Serve;
    var m := |requests| - 1;
    if m == 0 {
      assert requests[1..] == [];
    } else {
      ServeLast(cfg, Serve(cfg, db, requests[0]).0, requests[1..]);
      assert requests[1..][..m - 1] == requests[..m][1..];
    }
  }

  /** Requests that do not overlap are served as one after the other, whatever is in flight. */
  lemma {:induction false} WholeRequestsRunSerially(cfg: Config, s: State, requests: seq<Request>, events: seq<Event>)
    requires |events| == |requests| && forall i :: 0 <= i < |events| ==> events[i] == Whole(requests[i])
    ensures Run(cfg, s, events) == s.(db := AdminStore.Run(cfg, s.db, requests))
    decreases |events|
  {
    hide Serve;
    if events != [] {
      var m := |events| - 1;
      WholeRequestsRunSerially(cfg, s, requests[..m], events[..m]);
      ServeLast(cfg, s.db, requests);
    }
  }

  // ---------------------------------------------------------------------------
  // What every interleaving keeps

  ghost predicate RowOk(cfg: Config, row: Row) {
    match row
    case TeamRow(team) => team.slug == Slug.Slugify(cfg.lower, team.name)
    case RoleRow(role) => !role.isSystem && Permissions.IsNormal(cfg.catalog, role.permissions)
    case GrantRow(grant) => grant.active
    case _ => true
  }

  ghost predicate RaceInv(cfg: Config, s: State) {
    Core(cfg, s.db) && forall id :: id in s.flights ==> RowOk(cfg, s.flights[id])
  }

  lemma CheckedRowOk(cfg: Config, db: Db, r: Request)
    requires Creates(r) && Check(cfg, db, r).Go?
    ensures RowOk(cfg, Check(cfg, db, r).row)
  {
    hide Slug.Slugify, TeamsLike, MembersOf, BindingsOf, RolesNamed, AssignmentsLike, Permissions.Outcome,
         Permissions.IsNormal;
    if r.ReqCreateRole? {
      Permissions.ValidIsNormal(cfg.catalog, r.permissions);
    }
  }

  /** Whatever has happened since its lookups, a row that the constraints let in leaves the
      tables in order. */
  lemma InsertKeepsCore(cfg: Config, db: Db, row: Row)
    requires Core(cfg, db) && RowOk(cfg, row)
    ensures Core(cfg, Insert(db, row).0)
  {
    hide Slug.Slugify, TeamsOk, MembersOk, BindingsOk, RolesOk, AssignmentsOk, TeamsLike, MembersOf, BindingsOf,
         RolesNamed, Permissions.IsNormal, ScopeFits, SameKey;
    if Insert(db, row).1.Done? {
      match row
      case TeamRow(team) =>
        PutTeam(cfg, db, db.nextId, team);
        NewTeamKeeps(cfg, db, team);
      case MemberRow(member) => PutMember(db, db.nextId, member);
      case BindingRow(binding) => PutBinding(db, db.nextId, binding);
      case RoleRow(role) =>
        PutRole(cfg, db, db.nextId, role);
        NewRoleKeeps(cfg, db, role);
      case GrantRow(grant) => PutAssignment(db, db.nextId, grant);
    }
  }

  lemma StepKeepsRaceInv(cfg: Config, s: State, e: Event)
    requires RaceInv(cfg, s)
    ensures RaceInv(cfg, Step(cfg, s, e))
  {
    hide Core, RowOk, Serve, Check, Insert;
    match e
    case Whole(r) => ServeKeepsCore(cfg, s.db, r);
    case Look(id, r) =>
      if Creates(r) && Check(cfg, s.db, r).Go? {
        CheckedRowOk(cfg, s.db, r);
      }
    case Finish(id) =>
      if id in s.flights {
        InsertKeepsCore(cfg, s.db, s.flights[id]);
      }
  }

  lemma {:induction false} RunKeepsRaceInv(cfg: Config, s: State, events: seq<Event>)
    requires RaceInv(cfg, s)
    ensures RaceInv(cfg, Run(cfg, s, events))
    decreases |events|
  {
    hide RaceInv, Step;
    if events != [] {
      var m := |events| - 1;
      RunKeepsRaceInv(cfg, s, events[..m]);
      StepKeepsRaceInv(cfg, Run(cfg, s, events[..m]), events[m]);
    }
  }

  ghost predicate Start(s: State) {
    Init(s.db) && s.flights == map[]
  }

  lemma StartInv(cfg: Config, s: State)
    requires Start(s)
    ensures RaceInv(cfg, s) && GrantsUnique(s.db.assignments)
  {
    hide Core;
    InitInv(cfg, s.db);
  }

  /** However requests interleave, keys, foreign keys, slugs and permission lists stay in order,
      and of all lookups for one row only the duplicate lookup of a grant can find several. */
  lemma {:induction false} RacesKeepTheTables(cfg: Config, s: State, events: seq<Event>, r: Request)
    requires Start(s)
    ensures var db := Run(cfg, s, events).db;
            && Core(cfg, db)
            && (Serve(cfg, db, r).1 == ManyRows ==> r.ReqCreateAssignment? && !GrantsUnique(db.assignments))
  {
    hide Core, Run, Serve, GrantsUnique;
    StartInv(cfg, s);
    RunKeepsRaceInv(cfg, s, events);
    ServeKeepsCore(cfg, Run(cfg, s, events).db, r);
  }

  // ---------------------------------------------------------------------------
  // When the duplicate lookup can find several rows

  /** The step inserts a grant for a login, role and scope type that have one by now. */
  predicate Overtaken(s: State, e: Event) {
    e.Finish? && e.id in s.flights && s.flights[e.id].GrantRow?
    && (var grant := s.flights[e.id].grant;
        AssignmentsLike(s.db, grant.login, grant.roleId, grant.scopeType) != {} && InsertAssignment(s.db, grant).1.Done?)
  }

  lemma InsertedGrant(cfg: Config, db: Db, grant: Assignment)
    requires Core(cfg, db) && InsertAssignment(db, grant).1.Done?
    ensures var unique := AssignmentsLike(db, grant.login, grant.roleId, grant.scopeType) == {};
            && (!unique ==> !GrantsUnique(InsertAssignment(db, grant).0.assignments))
            && (unique && GrantsUnique(db.assignments) ==> GrantsUnique(InsertAssignment(db, grant).0.assignments))
  {
    hide TeamsOk, MembersOk, BindingsOk, RolesOk, AssignmentsOk, ScopeFits, SameKey;
    var after := InsertAssignment(db, grant).0.assignments;
    if AssignmentsLike(db, grant.login, grant.roleId, grant.scopeType) == {} {
      PutGrant(db, db.nextId, grant);
    } else {
      var i :| i in AssignmentsLike(db, grant.login, grant.roleId, grant.scopeType);
      assert i in after && i != db.nextId && SameGrant(after[i], after[db.nextId]);
    }
  }

  lemma OtherInserts(db: Db, row: Row)
    requires !row.GrantRow? || !InsertAssignment(db, row.grant).1.Done?
    ensures Insert(db, row).0.assignments == db.assignments
  {
    hide TeamsLike, MembersOf, BindingsOf, RolesNamed, ScopeFits, SameKey;
  }

  /** A step after which some login holds a role twice in one scope type is an overtaken insert,
      or was preceded by one. */
  lemma GrantsStep(cfg: Config, s: State, e: Event)
    requires RaceInv(cfg, s)
    ensures Overtaken(s, e) ==> !GrantsUnique(Step(cfg, s, e).db.assignments)
    ensures GrantsUnique(s.db.assignments) && !Overtaken(s, e) ==> GrantsUnique(Step(cfg, s, e).db.assignments)
  {
    hide Core, RowOk, Serve, Check, GrantsUnique, AssignmentsLike, InsertAssignment, InsertTeam, InsertMember, InsertBinding,
         InsertRole;
    match e
    case Whole(r) => ServeKeepsCore(cfg, s.db, r);
    case Look(_, _) =>
    case Finish(id) =>
      if id in s.flights {
        var row := s.flights[id];
        if row.GrantRow? && InsertAssignment(s.db, row.grant).1.Done? {
          InsertedGrant(cfg, s.db, row.grant);
        } else {
          OtherInserts(s.db, row);
        }
      }
  }

  /** No insert of the run was overtaken. */
  ghost predicate NoneOvertaken(cfg: Config, s: State, events: seq<Event>) {
    forall n: nat :: n < |events| ==> !Overtaken(Run(cfg, s, events[..n]), events[n])
  }

  lemma {:induction false} UniqueUnlessOvertaken(cfg: Config, s: State, events: seq<Event>)
    requires Start(s) && NoneOvertaken(cfg, s, events)
    ensures GrantsUnique(Run(cfg, s, events).db.assignments)
    decreases |events|
  {
    hide RaceInv, Step, Overtaken, GrantsUnique;
    StartInv(cfg, s);
    if events != [] {
      var m := |events| - 1;
      assert forall n: nat :: n < m ==> events[..m][..n] == events[..n] && events[..m][n] == events[n];
      UniqueUnlessOvertaken(cfg, s, events[..m]);
      RunKeepsRaceInv(cfg, s, events[..m]);
      GrantsStep(cfg, Run(cfg, s, events[..m]), events[m]);
    }
  }

  lemma GrantComesFromLook(cfg: Config, s: State, e: Event, id: nat)
    requires id in Step(cfg, s, e).flights && Step(cfg, s, e).flights[id].GrantRow?
    ensures var grant := Step(cfg, s, e).flights[id].grant;
            || (id in s.flights && s.flights[id] == GrantRow(grant))
            || (e.Look? && e.id == id && id !in s.flights && Like(s.db, grant) == {})
  {
    hide Slug.Slugify, TeamsLike, MembersOf, BindingsOf, RolesNamed, AssignmentsLike, Permissions.Outcome, Insert, Serve;
  }

  /** The grants that the duplicate lookup for this one finds. */
  function Like(db: Db, grant: Assignment): set<nat> {
    AssignmentsLike(db, grant.login, grant.roleId, grant.scopeType)
  }

  predicate Carries(s: State, id: nat, grant: Assignment) {
    id in s.flights && s.flights[id] == GrantRow(grant)
  }

  /** After n steps the flight still carries the grant it took up at step m, where its own lookup
      found none like it. */
  ghost predicate LookedAt(cfg: Config, s: State, events: seq<Event>, m: nat, n: nat, id: nat, grant: Assignment) {
    && m < n <= |events| && events[m].Look? && events[m].id == id
    && id !in Run(cfg, s, events[..m]).flights && Like(Run(cfg, s, events[..m]).db, grant) == {}
    && forall j: nat :: m < j <= n ==> Carries(Run(cfg, s, events[..j]), id, grant)
  }

  /** A grant under way had found no other of its login, role and scope type when it looked. */
  lemma {:induction false} GrantPassedItsLookup(cfg: Config, s: State, events: seq<Event>, n: nat, id: nat, grant: Assignment)
    requires Start(s) && n <= |events| && Carries(Run(cfg, s, events[..n]), id, grant)
    ensures exists m: nat :: LookedAt(cfg, s, events, m, n, id, grant)
  {
    hide Step, Like, Start, Run;
    if n == 0 {
      NothingInFlight(cfg, s, events, id);
    } else {
      var before := Run(cfg, s, events[..n - 1]);
      RunTo(cfg, s, events, n - 1);
      GrantComesFromLook(cfg, before, events[n - 1], id);
      if Carries(before, id, grant) {
        GrantPassedItsLookup(cfg, s, events, n - 1, id, grant);
        var m: nat :| LookedAt(cfg, s, events, m, n - 1, id, grant);
        assert LookedAt(cfg, s, events, m, n, id, grant);
      } else {
        assert LookedAt(cfg, s, events, n - 1, n, id, grant);
      }
    }
  }

  lemma NothingInFlight(cfg: Config, s: State, events: seq<Event>, id: nat)
    requires Start(s)
    ensures id !in Run(cfg, s, events[..0]).flights
  {
  }

  lemma RunTo(cfg: Config, s: State, events: seq<Event>, n: nat)
    requires n < |events|
    ensures Run(cfg, s, events[..n + 1]) == Step(cfg, Run(cfg, s, events[..n]), events[n])
  {
    hide Step, Run;
    RunSnoc(cfg, s, events[..n], events[n]);
    assert events[..n] + [events[n]] == events[..n + 1];
  }

  /** Between a moment without and a moment with such a grant, one comes in. */
  lemma {:induction false} Arrival(cfg: Config, s: State, events: seq<Event>, m: nat, n: nat, grant: Assignment)
      returns (k: nat)
    requires m <= n <= |events|
    requires Like(Run(cfg, s, events[..m]).db, grant) == {} && Like(Run(cfg, s, events[..n]).db, grant) != {}
    ensures m <= k < n
    ensures Like(Run(cfg, s, events[..k]).db, grant) == {} && Like(Run(cfg, s, events[..k + 1]).db, grant) != {}
    decreases n
  {
    hide Run, Like;
    if Like(Run(cfg, s, events[..n - 1]).db, grant) == {} {
      k := n - 1;
    } else {
      k := Arrival(cfg, s, events, m, n - 1, grant);
    }
  }

  lemma LookKeepsTables(cfg: Config, s: State, events: seq<Event>, m: nat)
    requires m < |events| && events[m].Look?
    ensures Run(cfg, s, events[..m + 1]).db == Run(cfg, s, events[..m]).db
  {
    hide Run, Check;
    RunTo(cfg, s, events, m);
  }

  /** Flight id looks up its grant at step m and finds none like it, another like it comes in at
      step k, and at step n, with one like it still there, the flight's own insert commits. */
  ghost predicate Race(cfg: Config, s: State, events: seq<Event>, m: nat, k: nat, n: nat, id: nat, grant: Assignment) {
    && m < k < n < |events| && events[n] == Finish(id)
    && LookedAt(cfg, s, events, m, n, id, grant)
    && Like(Run(cfg, s, events[..k]).db, grant) == {} && Like(Run(cfg, s, events[..k + 1]).db, grant) != {}
    && Like(Run(cfg, s, events[..n]).db, grant) != {}
    && InsertAssignment(Run(cfg, s, events[..n]).db, grant).1.Done?
  }

  lemma {:induction false} OvertakenIsARace(cfg: Config, s: State, events: seq<Event>, n: nat)
    requires Start(s) && n < |events| && Overtaken(Run(cfg, s, events[..n]), events[n])
    ensures exists m: nat, k: nat, id: nat, grant :: Race(cfg, s, events, m, k, n, id, grant)
  {
    hide Start, Run, Step, InsertAssignment, AssignmentsLike;
    var before := Run(cfg, s, events[..n]);
    var id := events[n].id;
    var grant := before.flights[id].grant;
    GrantPassedItsLookup(cfg, s, events, n, id, grant);
    var m: nat :| LookedAt(cfg, s, events, m, n, id, grant);
    LookKeepsTables(cfg, s, events, m);
    var k := Arrival(cfg, s, events, m + 1, n, grant);
    assert Race(cfg, s, events, m, k, n, id, grant);
  }

  lemma RaceIsOvertaken(cfg: Config, s: State, events: seq<Event>, m: nat, k: nat, n: nat, id: nat, grant: Assignment)
    requires Race(cfg, s, events, m, k, n, id, grant)
    ensures n < |events| && Overtaken(Run(cfg, s, events[..n]), events[n])
  {
    hide Run, InsertAssignment, AssignmentsLike;
    assert Carries(Run(cfg, s, events[..n]), id, grant);
  }

  lemma OvertakenDoubles(cfg: Config, s: State, events: seq<Event>, n: nat)
    requires Start(s) && n < |events| && Overtaken(Run(cfg, s, events[..n]), events[n])
    ensures !GrantsUnique(Run(cfg, s, events[..n + 1]).db.assignments)
  {
    hide RaceInv, Start, Run, Step, GrantsUnique, Overtaken;
    StartInv(cfg, s);
    RunKeepsRaceInv(cfg, s, events[..n]);
    GrantsStep(cfg, Run(cfg, s, events[..n]), events[n]);
    RunTo(cfg, s, events, n);
  }

  /** Over every interleaving: at some moment a login holds a role twice in one scope type, so
      that the duplicate lookup finds several rows, if and only if a grant like it came in between
      some grant's own lookup, which found none, and its insert, which committed beside one. */
  lemma {:induction false} DuplicatesExactlyWhenOvertaken(cfg: Config, s: State, events: seq<Event>)
    requires Start(s)
    ensures (exists n: nat :: n <= |events| && !GrantsUnique(Run(cfg, s, events[..n]).db.assignments))
            <==> (exists m: nat, k: nat, n: nat, id: nat, grant :: Race(cfg, s, events, m, k, n, id, grant))
  {
    hide Start, Run, Step, GrantsUnique, Race, Overtaken;
    forall m: nat, k: nat, n: nat, id: nat, grant | Race(cfg, s, events, m, k, n, id, grant)
      ensures n < |events| && !GrantsUnique(Run(cfg, s, events[..n + 1]).db.assignments)
    {
      RaceIsOvertaken(cfg, s, events, m, k, n, id, grant);
      OvertakenDoubles(cfg, s, events, n);
    }
    if NoneOvertaken(cfg, s, events) {
      forall n: nat | n <= |events| ensures GrantsUnique(Run(cfg, s, events[..n]).db.assignments) {
        assert forall k: nat :: k < n ==> events[..n][..k] == events[..k] && events[..n][k] == events[k];
        UniqueUnlessOvertaken(cfg, s, events[..n]);
      }
    } else {
      var n: nat :| n < |events| && Overtaken(Run(cfg, s, events[..n]), events[n]);
      OvertakenIsARace(cfg, s, events, n);
      OvertakenDoubles(cfg, s, events, n);
    }
  }

  // ---------------------------------------------------------------------------
  // Two grants at once

  lemma Then(cfg: Config, s: State, events: seq<Event>, e: Event, after: State) returns (longer: seq<Event>)
    requires Step(cfg, Run(cfg, s, events), e) == after
    ensures longer == events + [e] && Run(cfg, s, longer) == after
  {
    hide Step;
    RunSnoc(cfg, s, events, e);
    longer := events + [e];
  }

  lemma LookedUp(cfg: Config, s: State, id: nat, roleId: nat, login: string, value: string)
    requires Core(cfg, s.db) && roleId in s.db.roles && id !in s.flights
    requires AssignmentsLike(s.db, login, roleId, Org) == {}
    ensures Step(cfg, s, Look(id, ReqCreateAssignment(login, s.db.roles[roleId].name, Org, Some(value))))
         == s.(flights := s.flights[id := GrantRow(Assignment(login, roleId, Org, Some(value), true))])
  {
    hide TeamsOk, MembersOk, BindingsOk, AssignmentsOk, AssignmentsLike;
    OneRoleOfThatName(cfg, s.db, roleId);
  }

  /** Two grants of one role in one scope type, requested together for two organisations, can
      both be looked up before either is inserted; both then come in, and every later request for
      that grant fails on its duplicate lookup. */
  lemma {:induction false} TwoGrantsAtOnce(cfg: Config, s: State, roleId: nat, login: string) returns (events: seq<Event>)
    requires Start(s) && roleId in s.db.roles
    ensures var db := Run(cfg, s, events).db;
            && Core(cfg, db) && !GrantsUnique(db.assignments)
            && forall value :: Serve(cfg, db, ReqCreateAssignment(login, s.db.roles[roleId].name, Org, value)).1 == ManyRows
  {
    hide Run, Step, Serve, Core, GrantsUnique;
    var name, n := s.db.roles[roleId].name, s.db.nextId;
    var rowA, rowB := Assignment(login, roleId, Org, Some("a"), true), Assignment(login, roleId, Org, Some("b"), true);
    StartInv(cfg, s);
    RunNone(cfg, s);
    var s1 := State(s.db, map[1 := GrantRow(rowA)]);
    var s2 := State(s.db, map[1 := GrantRow(rowA), 2 := GrantRow(rowB)]);
    var s3 := State(s.db.(assignments := map[n := rowA], nextId := n + 1), map[2 := GrantRow(rowB)]);
    var s4 := State(s.db.(assignments := map[n := rowA, n + 1 := rowB], nextId := n + 2), map[]);
    LookedUp(cfg, s, 1, roleId, login, "a");
    events := Then(cfg, s, [], Look(1, ReqCreateAssignment(login, name, Org, Some("a"))), s1);
    LookedUp(cfg, s1, 2, roleId, login, "b");
    events := Then(cfg, s, events, Look(2, ReqCreateAssignment(login, name, Org, Some("b"))), s2);
    FinishIs(cfg, s2, 1, s3);
    events := Then(cfg, s, events, Finish(1), s3);
    FinishIs(cfg, s3, 2, s4);
    events := Then(cfg, s, events, Finish(2), s4);
    RunKeepsRaceInv(cfg, s, events);
    SeveralFound(cfg, s4.db, roleId, login, n, n + 1);
  }

  lemma RunNone(cfg: Config, s: State)
    ensures Run(cfg, s, []) == s
  {
  }

  lemma FinishIs(cfg: Config, s: State, id: nat, after: State)
    requires id in s.flights && after == State(Insert(s.db, s.flights[id]).0, s.flights - {id})
    ensures Step(cfg, s, Finish(id)) == after
  {
    hide Insert;
  }

  lemma SeveralFound(cfg: Config, db: Db, roleId: nat, login: string, i: nat, j: nat)
    requires Core(cfg, db) && roleId in db.roles && i != j && i in db.assignments && j in db.assignments
    requires SameGrant(db.assignments[i], Assignment(login, roleId, Org, None, true))
    requires SameGrant(db.assignments[j], Assignment(login, roleId, Org, None, true))
    ensures !GrantsUnique(db.assignments)
    ensures forall value :: Serve(cfg, db, ReqCreateAssignment(login, db.roles[roleId].name, Org, value)).1 == ManyRows
  {
    hide TeamsOk, MembersOk, BindingsOk, AssignmentsOk;
    OneRoleOfThatName(cfg, db, roleId);
    assert SameGrant(db.assignments[i], db.assignments[j]);
    var found := AssignmentsLike(db, login, roleId, Org);
    assert {i, j} <= found;
    assert j in found - {i} && |found - {i}| == |found| - 1;
  }
}
