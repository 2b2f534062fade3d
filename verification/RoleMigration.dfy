/** Migration 0039 (backend/alembic/versions/0039_rbac_enhanced_roles_permissions.py): the
    role and assignment tables under upgrade and downgrade. A statement that would break a
    constraint fails, and a failed migration rolls back. */
module RoleMigration {

  datatype Option<T> = None | Some(value: T)

  /** A role name: the four the original schema allows, the seven the migration seeds, any other. */
  datatype RoleName =
    | Analyst | ReportAdmin | RuleAuthor | SysAdmin
    | SuperAdmin | SecurityAnalyst | SecurityEngineer | ComplianceOfficer
    | EngineeringLeader | CopilotAdmin | Viewer
    | Other(text: string)

  datatype Role = Role(name: RoleName, isSystem: bool, isCustom: bool)

  /** A row of user_role_assignments; `scope` is scope_type with COALESCE(scope_value, ''). */
  datatype Assignment = Assignment(login: string, roleId: nat, scope: (string, string))

  /** The same row seen through the role's name. */
  datatype NamedRow = NamedRow(login: string, role: RoleName, scope: (string, string))

  /** `byName` is the unique index on role names; `checked` says whether the CHECK constraint on
      role names is in force. */
  datatype Db = Db(
    roles: map<nat, Role>,
    byName: map<RoleName, nat>,
    assignments: map<nat, Assignment>,
    nextRoleId: nat,
    checked: bool)

  type Pairs = seq<(RoleName, RoleName)>

  datatype RoleClass = OldRole | NewRole | OtherRole

  /** The IN lists of the statements name the old roles or the new roles. */
  function ClassOf(name: RoleName): RoleClass {
    match name
    case Analyst | ReportAdmin | RuleAuthor | SysAdmin => OldRole
    case SuperAdmin | SecurityAnalyst | SecurityEngineer | ComplianceOfficer
       | EngineeringLeader | CopilotAdmin | Viewer => NewRole
    case Other(_) => OtherRole
  }

  /** The rows of the two INSERT statements, in their order. */
  const OLD_ROLE_ROWS: seq<RoleName> := [Analyst, ReportAdmin, RuleAuthor, SysAdmin]

  const NEW_ROLE_ROWS: seq<RoleName> :=
    [SuperAdmin, SecurityAnalyst, SecurityEngineer, ComplianceOfficer, EngineeringLeader, CopilotAdmin, Viewer]

  const UPGRADE_PAIRS: Pairs :=
    [(SysAdmin, SuperAdmin), (ReportAdmin, ComplianceOfficer), (RuleAuthor, SecurityEngineer), (Analyst, SecurityAnalyst)]

  const DOWNGRADE_PAIRS: Pairs :=
    [(SuperAdmin, SysAdmin), (ComplianceOfficer, ReportAdmin), (SecurityEngineer, RuleAuthor), (SecurityAnalyst, Analyst)]

  /** ROLE_MIGRATION_MAP of backend/app/services/rbac_service.py. */
  const ROLE_MIGRATION_MAP: map<RoleName, RoleName> :=
    map[SysAdmin := SuperAdmin, ReportAdmin := ComplianceOfficer,
        RuleAuthor := SecurityEngineer, Analyst := SecurityAnalyst]

  // ---------------------------------------------------------------------------
  // Constraints

  ghost predicate Indexed(db: Db) {
    && (forall i :: i in db.roles ==> db.roles[i].name in db.byName && db.byName[db.roles[i].name] == i)
    && (forall n :: n in db.byName ==> db.byName[n] in db.roles && db.roles[db.byName[n]].name == n)
  }

  ghost predicate ForeignKeys(db: Db) {
    forall a :: a in db.assignments ==> db.assignments[a].roleId in db.roles
  }

  /** The unique index on (github_login, role_id, scope_type, COALESCE(scope_value, '')). */
  predicate UniqueKey(assignments: map<nat, Assignment>) {
    forall a, b :: a in assignments && b in assignments && assignments[a] == assignments[b] ==> a == b
  }

  ghost predicate Consistent(db: Db) {
    && Indexed(db) && ForeignKeys(db) && UniqueKey(db.assignments)
    && (forall i :: i in db.roles ==> i < db.nextRoleId)
    && (db.checked ==> forall n :: n in db.byName ==> ClassOf(n) == OldRole)
  }

  function Named(db: Db): map<nat, NamedRow>
    requires ForeignKeys(db)
  {
    map a | a in db.assignments ::
      NamedRow(db.assignments[a].login, db.roles[db.assignments[a].roleId].name, db.assignments[a].scope)
  }

  predicate UniqueRows(rows: map<nat, NamedRow>) {
    forall a, b :: a in rows && b in rows && rows[a] == rows[b] ==> a == b
  }

  // ---------------------------------------------------------------------------
  // The statements

  /** UPDATE rbac_roles SET is_system = true WHERE name IN (the roles of this kind) */
  function MarkSystem(db: Db, kind: RoleClass): Db {
    db.(roles := map i | i in db.roles ::
      if ClassOf(db.roles[i].name) == kind then db.roles[i].(isSystem := true) else db.roles[i])
  }

  /** INSERT one role; on a name conflict, DO UPDATE the flags or DO NOTHING. */
  function InsertRole(db: Db, name: RoleName, overwrite: bool): Db {
    if name in db.byName then
      if overwrite then db.(roles := db.roles[db.byName[name] := Role(name, true, false)]) else db
    else
      db.(roles := db.roles[db.nextRoleId := Role(name, true, false)],
          byName := db.byName[name := db.nextRoleId],
          nextRoleId := db.nextRoleId + 1)
  }

  function InsertRoles(db: Db, names: seq<RoleName>, overwrite: bool): Db
    decreases |names|
  {
    if names == [] then db else InsertRoles(InsertRole(db, names[0], overwrite), names[1..], overwrite)
  }

  function HoldersOf(db: Db, name: RoleName): set<nat> {
    set a | a in db.assignments && name in db.byName && db.assignments[a].roleId == db.byName[name]
  }

  /** UPDATE user_role_assignments SET role_id = (id of `target`) WHERE role_id = (id of `source`).
      A missing target is a NULL role id, a repeated key a unique violation: both fail. */
  function Repoint(db: Db, source: RoleName, target: RoleName): Option<Db> {
    if HoldersOf(db, source) == {} then Some(db)
    else if target !in db.byName then None
    else
      var moved := map a | a in db.assignments ::
        if a in HoldersOf(db, source) then db.assignments[a].(roleId := db.byName[target]) else db.assignments[a];
      if UniqueKey(moved) then Some(db.(assignments := moved)) else None
  }

  function RepointAll(db: Db, pairs: Pairs): Option<Db>
    decreases |pairs|
  {
    if pairs == [] then Some(db)
    else match Repoint(db, pairs[0].0, pairs[0].1)
      case None => None
      case Some(next) => RepointAll(next, pairs[1..])
  }

  /** DELETE FROM rbac_roles WHERE name IN (the roles of this kind); a row still referenced makes it fail. */
  function DeleteRoles(db: Db, kind: RoleClass): Option<Db> {
    if exists a :: a in db.assignments && db.assignments[a].roleId in db.roles
         && ClassOf(db.roles[db.assignments[a].roleId].name) == kind
    then None
    else Some(db.(
      roles := map i | i in db.roles && ClassOf(db.roles[i].name) != kind :: db.roles[i],
      byName := map n | n in db.byName && ClassOf(n) != kind :: db.byName[n]))
  }

  /** ADD CONSTRAINT ... CHECK (name IN the four old names) */
  function AddCheck(db: Db): Option<Db> {
    if forall n :: n in db.byName ==> ClassOf(n) == OldRole then Some(db.(checked := true)) else None
  }

  function Prepared(db: Db): Db {
    InsertRoles(MarkSystem(db.(checked := false), OldRole), NEW_ROLE_ROWS, true)
  }

  function RepointThenDelete(db: Db, pairs: Pairs, doomed: RoleClass): Option<Db> {
    match RepointAll(db, pairs)
    case None => None
    case Some(moved) => DeleteRoles(moved, doomed)
  }

  function Upgrade(db: Db): Option<Db> {
    RepointThenDelete(Prepared(db), UPGRADE_PAIRS, OldRole)
  }

  function Downgrade(db: Db): Option<Db> {
    match RepointThenDelete(InsertRoles(db, OLD_ROLE_ROWS, false), DOWNGRADE_PAIRS, NewRole)
    case None => None
    case Some(pruned) => AddCheck(pruned)
  }

  // ---------------------------------------------------------------------------
  // The same statements as in-place changes to the tables

  class MigrationSession {
    var roles: map<nat, Role>
    var byName: map<RoleName, nat>
    var assignments: map<nat, Assignment>
    var nextRoleId: nat
    var checked: bool

    constructor (db: Db)
      ensures View() == db
    {
      roles, byName, assignments, nextRoleId, checked :=
        db.roles, db.byName, db.assignments, db.nextRoleId, db.checked;
    }

    function View(): Db
      reads this
    {
      Db(roles, byName, assignments, nextRoleId, checked)
    }

    method ExecuteInsert(names: seq<RoleName>, overwrite: bool)
      modifies this
      ensures View() == InsertRoles(old(View()), names, overwrite)
    {
      for i := 0 to |names|
        invariant InsertRoles(View(), names[i..], overwrite) == InsertRoles(old(View()), names, overwrite)
      {
        var name := names[i];
        ghost var before := View();
        if name !in byName {
          roles := roles[nextRoleId := Role(name, true, false)];
          byName := byName[name := nextRoleId];
          nextRoleId := nextRoleId + 1;
        } else if overwrite {
          roles := roles[byName[name] := Role(name, true, false)];
        }
        assert View() == InsertRole(before, name, overwrite);
        assert names[i..][1..] == names[i + 1..];
      }
    }

    method ExecuteUpdate(source: RoleName, target: RoleName) returns (ok: bool)
      modifies this
      ensures var r := Repoint(old(View()), source, target);
              ok == r.Some? && View() == if ok then r.value else old(View())
    {
      var touched := HoldersOf(View(), source);
      if touched == {} {
        return true;
      }
      if target !in byName {
        return false;
      }
      var id := byName[target];
      var moved := map a | a in assignments ::
        if a in touched then assignments[a].(roleId := id) else assignments[a];
      ok := UniqueKey(moved);
      if ok {
        assignments := moved;
      }
    }

    method ExecuteUpdates(pairs: Pairs) returns (ok: bool)
      modifies this
      ensures var r := RepointAll(old(View()), pairs);
              ok == r.Some? && (ok ==> View() == r.value)
    {
      for i := 0 to |pairs|
        invariant RepointAll(View(), pairs[i..]) == RepointAll(old(View()), pairs)
      {
        ok := ExecuteUpdate(pairs[i].0, pairs[i].1);
        assert pairs[i..][1..] == pairs[i + 1..];
        if !ok {
          return;
        }
      }
      ok := true;
    }

    method ExecuteDelete(kind: RoleClass) returns (ok: bool)
      modifies this
      ensures var r := DeleteRoles(old(View()), kind);
              ok == r.Some? && View() == if ok then r.value else old(View())
    {
      ok := !exists a :: a in assignments && assignments[a].roleId in roles
                 && ClassOf(roles[assignments[a].roleId].name) == kind;
      if ok {
        roles, byName :=
          map i | i in roles && ClassOf(roles[i].name) != kind :: roles[i],
          map n | n in byName && ClassOf(n) != kind :: byName[n];
      }
    }

    method Rollback(db: Db)
      modifies this
      ensures View() == db
    {
      roles, byName, assignments, nextRoleId, checked :=
        db.roles, db.byName, db.assignments, db.nextRoleId, db.checked;
    }

    /** Every statement of upgrade() in order; a failure restores the tables. */
    method RunUpgrade() returns (ok: bool)
      modifies this
      ensures var r := Upgrade(old(View()));
              ok == r.Some? && View() == if ok then r.value else old(View())
    {
      hide InsertRoles, RepointAll, DeleteRoles, ClassOf;
      var start := View();
      checked := false;
      roles := map i | i in roles ::
        if ClassOf(roles[i].name) == OldRole then roles[i].(isSystem := true) else roles[i];
      assert View() == MarkSystem(start.(checked := false), OldRole);
      ExecuteInsert(NEW_ROLE_ROWS, true);
      ok := ExecuteUpdates(UPGRADE_PAIRS);
      if ok {
        ok := ExecuteDelete(OldRole);
      }
      if !ok {
        Rollback(start);
      }
    }

    /** Every statement of downgrade() in order; a failure restores the tables. */
    method RunDowngrade() returns (ok: bool)
      modifies this
      ensures var r := Downgrade(old(View()));
              ok == r.Some? && View() == if ok then r.value else old(View())
    {
      hide InsertRoles, RepointAll, DeleteRoles, ClassOf;
      var start := View();
      ExecuteInsert(OLD_ROLE_ROWS, false);
      ok := ExecuteUpdates(DOWNGRADE_PAIRS);
      if ok {
        ok := ExecuteDelete(NewRole);
      }
      if ok {
        ok := forall n :: n in byName ==> ClassOf(n) == OldRole;
        checked := true;
      }
      if !ok {
        Rollback(start);
      }
    }
  }

  // ---------------------------------------------------------------------------
  // What each statement keeps

  /** Role rows added, or changed in anything but the name, leave every assignment as it reads. */
  lemma NamedSame(db: Db, db': Db)
    requires ForeignKeys(db) && db'.assignments == db.assignments
    requires forall i :: i in db.roles ==> i in db'.roles && db'.roles[i].name == db.roles[i].name
    ensures ForeignKeys(db') && Named(db') == Named(db)
  {
  }

  lemma RewriteKeepsIndex(db: Db, id: nat, role: Role)
    requires Indexed(db) && id in db.roles && role.name == db.roles[id].name
    ensures Indexed(db.(roles := db.roles[id := role]))
  {
  }

  lemma NewRoleKeepsIndex(db: Db, role: Role)
    requires Indexed(db) && role.name !in db.byName && db.nextRoleId !in db.roles
    ensures Indexed(db.(roles := db.roles[db.nextRoleId := role], byName := db.byName[role.name := db.nextRoleId],
                        nextRoleId := db.nextRoleId + 1))
  {
  }

  lemma NameOf(db: Db, name: RoleName)
    requires Indexed(db) && name in db.byName
    ensures db.byName[name] in db.roles && db.roles[db.byName[name]].name == name
  {
  }

  lemma InsertRoleIndexed(db: Db, name: RoleName, overwrite: bool)
    requires Indexed(db) && forall i :: i in db.roles ==> i < db.nextRoleId
    ensures var db' := InsertRole(db, name, overwrite);
            && Indexed(db')
            && (forall i :: i in db.roles ==> i in db'.roles && db'.roles[i].name == db.roles[i].name)
  {
    hide Indexed;
    if name in db.byName {
      NameOf(db, name);
      RewriteKeepsIndex(db, db.byName[name], Role(name, true, false));
    } else {
      NewRoleKeepsIndex(db, Role(name, true, false));
    }
  }

  lemma InsertRoleRows(db: Db, name: RoleName, overwrite: bool)
    requires Indexed(db) && forall i :: i in db.roles ==> i < db.nextRoleId
    ensures var db' := InsertRole(db, name, overwrite);
            && db'.assignments == db.assignments && db'.checked == db.checked
            && (forall i :: i in db'.roles ==> i < db'.nextRoleId)
            && (forall n :: n in db'.byName <==> n in db.byName || n == name)
  {
  }

  lemma InsertRoleKeeps(db: Db, name: RoleName, overwrite: bool)
    requires Consistent(db) && !db.checked
    ensures var db' := InsertRole(db, name, overwrite);
            && Consistent(db') && !db'.checked && Named(db') == Named(db)
            && forall n :: n in db'.byName <==> n in db.byName || n == name
  {
    hide InsertRole, Indexed, UniqueKey, Named, ForeignKeys;
    InsertRoleIndexed(db, name, overwrite);
    InsertRoleRows(db, name, overwrite);
    NamedSame(db, InsertRole(db, name, overwrite));
  }

  lemma {:induction false} InsertRolesKeeps(db: Db, names: seq<RoleName>, overwrite: bool)
    requires Consistent(db) && !db.checked
    ensures var db' := InsertRoles(db, names, overwrite);
            && Consistent(db') && !db'.checked && Named(db') == Named(db)
            && forall n :: n in db'.byName <==> n in db.byName || n in names
    decreases |names|
  {
    hide Consistent, InsertRole, Named;
    if names != [] {
      InsertRoleKeeps(db, names[0], overwrite);
      InsertRolesKeeps(InsertRole(db, names[0], overwrite), names[1..], overwrite);
      assert names == [names[0]] + names[1..];
    }
  }

  lemma InsertMarksSystem(db: Db, name: RoleName)
    requires Indexed(db) && forall i :: i in db.roles ==> i < db.nextRoleId
    ensures var db' := InsertRole(db, name, true);
            && IsSystemRole(db', name)
            && forall n :: IsSystemRole(db, n) ==> IsSystemRole(db', n)
  {
    hide Indexed, IsSystemRole, InsertRole;
    InsertedIsSystem(db, name);
    forall n | IsSystemRole(db, n) ensures IsSystemRole(InsertRole(db, name, true), n) {
      InsertKeepsSystem(db, name, n);
    }
  }

  lemma InsertedIsSystem(db: Db, name: RoleName)
    ensures IsSystemRole(InsertRole(db, name, true), name)
  {
  }

  lemma InsertKeepsSystem(db: Db, name: RoleName, n: RoleName)
    requires IsSystemRole(db, n) && db.nextRoleId !in db.roles
    ensures IsSystemRole(InsertRole(db, name, true), n)
  {
  }

  predicate IsSystemRole(db: Db, name: RoleName) {
    name in db.byName && db.byName[name] in db.roles
    && db.roles[db.byName[name]].isSystem && !db.roles[db.byName[name]].isCustom
  }

  /** The upsert leaves every inserted role a system role, whether or not it was there before. */
  lemma {:induction false} InsertsMarkSystem(db: Db, names: seq<RoleName>)
    requires Consistent(db) && !db.checked
    ensures var db' := InsertRoles(db, names, true);
            && (forall n :: n in names ==> IsSystemRole(db', n))
            && (forall n :: IsSystemRole(db, n) ==> IsSystemRole(db', n))
    decreases |names|
  {
    hide InsertRole, IsSystemRole, Indexed, Named, UniqueKey;
    if names != [] {
      InsertMarksSystem(db, names[0]);
      InsertRoleKeeps(db, names[0], true);
      InsertsMarkSystem(InsertRole(db, names[0], true), names[1..]);
      assert names == [names[0]] + names[1..];
    }
  }

  lemma RowsByClass()
    ensures forall n :: n in OLD_ROLE_ROWS <==> ClassOf(n) == OldRole
    ensures forall n :: n in NEW_ROLE_ROWS <==> ClassOf(n) == NewRole
  {
    forall n
      ensures n in OLD_ROLE_ROWS <==> ClassOf(n) == OldRole
      ensures n in NEW_ROLE_ROWS <==> ClassOf(n) == NewRole
    {
    }
  }

  lemma PreparedKeeps(db: Db)
    requires Consistent(db)
    ensures var db' := Prepared(db);
            && Consistent(db') && !db'.checked && Named(db') == Named(db)
            && forall n :: n in db'.byName <==> n in db.byName || ClassOf(n) == NewRole
  {
    hide Consistent, MarkSystem, InsertRoles, ClassOf, Named;
    MarkingKeeps(db);
    InsertRolesKeeps(MarkSystem(db.(checked := false), OldRole), NEW_ROLE_ROWS, true);
    RowsByClass();
  }

  lemma MarkingKeeps(db: Db)
    requires Consistent(db)
    ensures var db' := MarkSystem(db.(checked := false), OldRole);
            && Consistent(db') && !db'.checked && Named(db') == Named(db) && db'.byName == db.byName
            && db'.roles.Keys == db.roles.Keys
            && forall i :: i in db.roles ==>
                 db'.roles[i] == db.roles[i].(isSystem := db.roles[i].isSystem || ClassOf(db.roles[i].name) == OldRole)
  {
    hide ClassOf, UniqueKey, Named;
    NamedSame(db, MarkSystem(db.(checked := false), OldRole));
  }

  // ---------------------------------------------------------------------------
  // One simultaneous renaming

  /** The renaming that sends every source to its target at once. */
  function Rename(pairs: Pairs, name: RoleName): RoleName {
    if pairs == [] then name
    else if name == pairs[0].0 then pairs[0].1
    else Rename(pairs[1..], name)
  }

  function RenameRows(pairs: Pairs, rows: map<nat, NamedRow>): map<nat, NamedRow> {
    map a | a in rows :: rows[a].(role := Rename(pairs, rows[a].role))
  }

  /** No target is also a source: the updates cannot chain. */
  predicate SourcesApartFromTargets(pairs: Pairs) {
    forall i, j :: 0 <= i < |pairs| && 0 <= j < |pairs| ==> pairs[i].1 != pairs[j].0
  }

  lemma RenameFixes(pairs: Pairs, name: RoleName)
    requires forall i :: 0 <= i < |pairs| ==> pairs[i].0 != name
    ensures Rename(pairs, name) == name
  {
  }

  lemma RenameOne(source: RoleName, target: RoleName, name: RoleName)
    ensures Rename([(source, target)], name) == if name == source then target else name
  {
  }

  lemma RenameRowsStep(pairs: Pairs, rows: map<nat, NamedRow>)
    requires pairs != [] && SourcesApartFromTargets(pairs)
    ensures RenameRows(pairs, rows) == RenameRows(pairs[1..], RenameRows([pairs[0]], rows))
  {
    var (source, target) := pairs[0];
    assert forall i :: 0 <= i < |pairs[1..]| ==> pairs[1..][i] == pairs[i + 1];
    RenameFixes(pairs[1..], target);
    forall a | a in rows
      ensures Rename(pairs, rows[a].role) == Rename(pairs[1..], Rename([pairs[0]], rows[a].role))
    {
      RenameOne(source, target, rows[a].role);
    }
  }

  lemma RenameNothing(rows: map<nat, NamedRow>)
    ensures RenameRows([], rows) == rows
  {
  }

  lemma CollisionStays(pairs: Pairs, rows: map<nat, NamedRow>)
    requires !UniqueRows(rows)
    ensures !UniqueRows(RenameRows(pairs, rows))
  {
    var a, b :| a in rows && b in rows && rows[a] == rows[b] && a != b;
    assert RenameRows(pairs, rows)[a] == RenameRows(pairs, rows)[b];
  }

  lemma SameRow(db: Db, a: nat, b: nat)
    requires Indexed(db) && ForeignKeys(db) && a in db.assignments && b in db.assignments
    ensures db.assignments[a] == db.assignments[b] <==> Named(db)[a] == Named(db)[b]
  {
  }

  lemma UniqueKeyIsUniqueRows(db: Db)
    requires Indexed(db) && ForeignKeys(db)
    ensures UniqueKey(db.assignments) <==> UniqueRows(Named(db))
  {
    forall a, b | a in db.assignments && b in db.assignments
      ensures db.assignments[a] == db.assignments[b] <==> Named(db)[a] == Named(db)[b]
    {
      SameRow(db, a, b);
    }
  }

  function Moved(db: Db, source: RoleName, target: RoleName): map<nat, Assignment>
    requires target in db.byName
  {
    map a | a in db.assignments ::
      if a in HoldersOf(db, source) then db.assignments[a].(roleId := db.byName[target]) else db.assignments[a]
  }

  lemma MovedStaysLinked(db: Db, source: RoleName, target: RoleName)
    requires Indexed(db) && ForeignKeys(db) && target in db.byName
    ensures ForeignKeys(db.(assignments := Moved(db, source, target)))
  {
  }

  lemma OneMoved(db: Db, source: RoleName, target: RoleName, a: nat)
    requires Indexed(db) && ForeignKeys(db) && target in db.byName && a in db.assignments
    ensures var row, role := Moved(db, source, target)[a], db.roles[db.assignments[a].roleId].name;
            && row.roleId in db.roles && row.login == db.assignments[a].login && row.scope == db.assignments[a].scope
            && db.roles[row.roleId].name == if role == source then target else role
  {
    assert a in HoldersOf(db, source) <==> db.roles[db.assignments[a].roleId].name == source;
  }

  lemma MovedIsRenamed(db: Db, source: RoleName, target: RoleName)
    requires Indexed(db) && ForeignKeys(db) && target in db.byName
    ensures var db' := db.(assignments := Moved(db, source, target));
            && Indexed(db') && ForeignKeys(db')
            && Named(db') == RenameRows([(source, target)], Named(db))
  {
    hide Rename, HoldersOf;
    MovedStaysLinked(db, source, target);
    var db' := db.(assignments := Moved(db, source, target));
    assert Indexed(db');
    NamesMoved(db, db', source, target);
  }

  lemma NamesMoved(db: Db, db': Db, source: RoleName, target: RoleName)
    requires Indexed(db) && ForeignKeys(db) && ForeignKeys(db') && target in db.byName
    requires db' == db.(assignments := Moved(db, source, target))
    ensures Named(db') == RenameRows([(source, target)], Named(db))
  {
    hide Rename, HoldersOf, Indexed, ForeignKeys;
    forall a | a in db.assignments
      ensures Named(db')[a] == RenameRows([(source, target)], Named(db))[a]
    {
      OneMoved(db, source, target, a);
      RenameOne(source, target, Named(db)[a].role);
    }
  }

  lemma {:induction false} RepointIsRename(db: Db, source: RoleName, target: RoleName)
    requires Consistent(db) && !db.checked && target in db.byName
    ensures var r := Repoint(db, source, target);
            var renamed := RenameRows([(source, target)], Named(db));
            && (r.Some? <==> UniqueRows(renamed))
            && (r.Some? ==> (Consistent(r.value) && r.value == db.(assignments := r.value.assignments)
                         && Named(r.value) == renamed && r.value.assignments.Keys == db.assignments.Keys))
  {
    hide RenameRows, UniqueKey, UniqueRows, Named;
    var db' := db.(assignments := Moved(db, source, target));
    MovedIsRenamed(db, source, target);
    UniqueKeyIsUniqueRows(db');
    if HoldersOf(db, source) == {} {
      assert Moved(db, source, target) == db.assignments;
    }
  }

  /** The updates run one after the other equal the one simultaneous renaming, and they all
      succeed exactly when that renaming keeps the unique key. Each one that succeeds leaves a
      consistent table with the same row ids. */
  lemma {:induction false} SequentialIsSimultaneous(db: Db, pairs: Pairs)
    requires Consistent(db) && !db.checked
    requires SourcesApartFromTargets(pairs)
    requires forall i :: 0 <= i < |pairs| ==> pairs[i].1 in db.byName
    ensures var r := RepointAll(db, pairs);
            var renamed := RenameRows(pairs, Named(db));
            && (r.Some? <==> UniqueRows(renamed))
            && (r.Some? ==> (Consistent(r.value) && r.value == db.(assignments := r.value.assignments)
                         && Named(r.value) == renamed && r.value.assignments.Keys == db.assignments.Keys))
    decreases |pairs|
  {
    hide Repoint, RenameRows, UniqueKey, UniqueRows, Rename, Named;
    if pairs == [] {
      RenameNothing(Named(db));
      UniqueKeyIsUniqueRows(db);
    } else {
      var (source, target) := pairs[0];
      var rest, first := pairs[1..], RenameRows([pairs[0]], Named(db));
      RenameRowsStep(pairs, Named(db));
      RepointIsRename(db, source, target);
      assert forall i :: 0 <= i < |rest| ==> rest[i] == pairs[i + 1];
      var r := Repoint(db, source, target);
      if r.Some? {
        SequentialIsSimultaneous(r.value, rest);
      } else {
        CollisionStays(rest, first);
      }
    }
  }

  lemma DeleteRolesIndexed(db: Db, kind: RoleClass)
    requires Indexed(db)
    ensures DeleteRoles(db, kind).Some? ==> Indexed(DeleteRoles(db, kind).value)
  {
  }

  lemma DeleteRolesLeavesRows(db: Db, kind: RoleClass)
    requires ForeignKeys(db)
    ensures var r := DeleteRoles(db, kind);
            && (r.Some? <==> forall a :: a in Named(db) ==> ClassOf(Named(db)[a].role) != kind)
            && (r.Some? ==> ForeignKeys(r.value) && Named(r.value) == Named(db))
  {
    hide ClassOf;
    var r := DeleteRoles(db, kind);
    if forall a :: a in Named(db) ==> ClassOf(Named(db)[a].role) != kind {
      forall a | a in db.assignments ensures ClassOf(db.roles[db.assignments[a].roleId].name) != kind {
        assert ClassOf(Named(db)[a].role) != kind;
      }
    }
    if r.Some? {
      forall a | a in db.assignments ensures ClassOf(Named(db)[a].role) != kind && db.assignments[a].roleId in r.value.roles {
        assert Named(db)[a].role == db.roles[db.assignments[a].roleId].name;
      }
    }
  }

  lemma DeleteRolesKeeps(db: Db, kind: RoleClass)
    requires Consistent(db)
    ensures var r := DeleteRoles(db, kind);
            && (r.Some? <==> forall a :: a in Named(db) ==> ClassOf(Named(db)[a].role) != kind)
            && (r.Some? ==> (Consistent(r.value) && r.value.checked == db.checked
                         && Named(r.value) == Named(db)
                          && forall n :: n in r.value.byName <==> n in db.byName && ClassOf(n) != kind))
  {
    hide Indexed, UniqueKey, ClassOf, Named;
    DeleteRolesIndexed(db, kind);
    DeleteRolesLeavesRows(db, kind);
  }

  /** The common tail of both migrations. */
  lemma {:induction false} RepointThenDeleteIsRenaming(db: Db, pairs: Pairs, doomed: RoleClass)
    requires Consistent(db) && !db.checked
    requires SourcesApartFromTargets(pairs)
    requires forall i :: 0 <= i < |pairs| ==> pairs[i].1 in db.byName
    ensures var r := RepointThenDelete(db, pairs, doomed);
            var renamed := RenameRows(pairs, Named(db));
            && (r.Some? <==> UniqueRows(renamed) && forall a :: a in renamed ==> ClassOf(renamed[a].role) != doomed)
            && (r.Some? ==> (Consistent(r.value) && !r.value.checked && Named(r.value) == renamed
                         && forall n :: n in r.value.byName <==> n in db.byName && ClassOf(n) != doomed))
  {
    hide Consistent, RepointAll, DeleteRoles, RenameRows, Named;
    SequentialIsSimultaneous(db, pairs);
    var moved := RepointAll(db, pairs);
    if moved.Some? {
      DeleteRolesKeeps(moved.value, doomed);
    }
  }

  // ---------------------------------------------------------------------------
  // The two migrations

  lemma RenameFour(pairs: Pairs, name: RoleName)
    requires |pairs| == 4
    ensures Rename(pairs, name) ==
            if name == pairs[0].0 then pairs[0].1 else if name == pairs[1].0 then pairs[1].1
            else if name == pairs[2].0 then pairs[2].1 else if name == pairs[3].0 then pairs[3].1 else name
  {
    var p1, p2, p3 := pairs[1..], pairs[2..], pairs[3..];
    assert p1[1..] == p2 && p2[1..] == p3 && p3[1..] == [];
    assert Rename(p3, name) == if name == pairs[3].0 then pairs[3].1 else name;
    assert Rename(p2, name) == if name == pairs[2].0 then pairs[2].1 else Rename(p3, name);
    assert Rename(p1, name) == if name == pairs[1].0 then pairs[1].1 else Rename(p2, name);
  }

  lemma PairFacts()
    ensures SourcesApartFromTargets(UPGRADE_PAIRS) && SourcesApartFromTargets(DOWNGRADE_PAIRS)
    ensures forall i :: 0 <= i < |UPGRADE_PAIRS| ==> ClassOf(UPGRADE_PAIRS[i].1) == NewRole
    ensures forall i :: 0 <= i < |DOWNGRADE_PAIRS| ==> ClassOf(DOWNGRADE_PAIRS[i].1) == OldRole
  {
  }

  lemma UpgradeRenames(name: RoleName)
    ensures Rename(UPGRADE_PAIRS, name) == if name in ROLE_MIGRATION_MAP then ROLE_MIGRATION_MAP[name] else name
    ensures ClassOf(Rename(UPGRADE_PAIRS, name)) != OldRole
  {
    RenameFour(UPGRADE_PAIRS, name);
  }

  lemma DowngradeRenames(name: RoleName)
    ensures Rename(DOWNGRADE_PAIRS, name) ==
            match name
            case SuperAdmin => SysAdmin
            case ComplianceOfficer => ReportAdmin
            case SecurityEngineer => RuleAuthor
            case SecurityAnalyst => Analyst
            case _ => name
  {
    RenameFour(DOWNGRADE_PAIRS, name);
  }

  /** Going up and down restores a name the migration did not introduce; a name it did is either
      changed or left on a role that downgrade deletes. */
  lemma UpAndDown(name: RoleName)
    ensures var back := Rename(DOWNGRADE_PAIRS, Rename(UPGRADE_PAIRS, name));
            back == name && ClassOf(back) != NewRole <==> ClassOf(name) != NewRole
  {
    UpgradeRenames(name);
    DowngradeRenames(Rename(UPGRADE_PAIRS, name));
  }

  lemma RowsUnique(db: Db)
    requires Consistent(db)
    ensures ForeignKeys(db) && UniqueRows(Named(db))
  {
    UniqueKeyIsUniqueRows(db);
  }

  lemma UpgradeLeavesOldRoles(rows: map<nat, NamedRow>)
    ensures var renamed := RenameRows(UPGRADE_PAIRS, rows);
            forall a :: a in renamed ==> ClassOf(renamed[a].role) != OldRole
  {
    hide Rename, ClassOf;
    forall a | a in rows ensures ClassOf(Rename(UPGRADE_PAIRS, rows[a].role)) != OldRole {
      UpgradeRenames(rows[a].role);
    }
  }

  /** upgrade() acts on the assignments as one renaming of every row at once (UpgradeRenames: by
      ROLE_MIGRATION_MAP), and commits exactly when no login holds an old role and its replacement in one scope. Then no
      old role is left. */
  lemma {:induction false} UpgradeIsRenaming(db: Db)
    requires Consistent(db)
    ensures var r := Upgrade(db);
            var renamed := RenameRows(UPGRADE_PAIRS, Named(db));
            && (r.Some? <==> UniqueRows(renamed))
            && (r.Some? ==> (Consistent(r.value) && !r.value.checked && Named(r.value) == renamed
                         && forall n :: n in r.value.byName <==> (n in db.byName || ClassOf(n) == NewRole) && ClassOf(n) != OldRole))
  {
    hide Consistent, RepointThenDelete, Prepared, ClassOf, RenameRows, UniqueRows, Named;
    RowsUnique(db);
    PreparedKeeps(db);
    var prepared := Prepared(db);
    RepointThenDeleteIsRenaming(prepared, UPGRADE_PAIRS, OldRole) by {
      PairFacts();
    }
    UpgradeLeavesOldRoles(Named(db));
  }

  lemma RepointKeepsRoles(db: Db, source: RoleName, target: RoleName)
    ensures var r := Repoint(db, source, target);
            r.Some? ==> r.value.roles == db.roles && r.value.byName == db.byName
  {
    hide HoldersOf, UniqueKey;
  }

  lemma {:induction false} RepointAllKeepsRoles(db: Db, pairs: Pairs)
    ensures var r := RepointAll(db, pairs);
            r.Some? ==> r.value.roles == db.roles && r.value.byName == db.byName
    decreases |pairs|
  {
    hide Repoint;
    if pairs != [] {
      RepointKeepsRoles(db, pairs[0].0, pairs[0].1);
      var next := Repoint(db, pairs[0].0, pairs[0].1);
      if next.Some? {
        RepointAllKeepsRoles(next.value, pairs[1..]);
      }
    }
  }

  lemma DeleteKeepsSystemRole(db: Db, kind: RoleClass, n: RoleName)
    requires Indexed(db) && IsSystemRole(db, n) && ClassOf(n) != kind
    ensures DeleteRoles(db, kind).Some? ==> IsSystemRole(DeleteRoles(db, kind).value, n)
  {
    hide ClassOf;
  }

  /** After upgrade() the seven roles it introduces are all there, as system roles. */
  lemma {:induction false} UpgradeSeedsSystemRoles(db: Db, n: RoleName)
    requires Consistent(db) && Upgrade(db).Some? && ClassOf(n) == NewRole
    ensures IsSystemRole(Upgrade(db).value, n)
  {
    hide InsertRoles, RepointAll, DeleteRoles, IsSystemRole, Named, UniqueKey, ClassOf, MarkSystem;
    var marked, prepared := MarkSystem(db.(checked := false), OldRole), Prepared(db);
    MarkingKeeps(db);
    PreparedKeeps(db);
    RowsByClass();
    InsertsMarkSystem(marked, NEW_ROLE_ROWS);
    RepointAllKeepsRoles(prepared, UPGRADE_PAIRS);
    var moved := RepointAll(prepared, UPGRADE_PAIRS);
    SameRolesSameSystem(prepared, moved.value, n);
    DeleteKeepsSystemRole(moved.value, OldRole, n);
  }

  lemma SameRolesSameSystem(db: Db, db': Db, n: RoleName)
    requires db'.roles == db.roles && db'.byName == db.byName && Indexed(db) && IsSystemRole(db, n)
    ensures Indexed(db') && IsSystemRole(db', n)
  {
  }

  /** Under the schema the migration starts from, where only the four old roles can exist,
      upgrade() always commits. */
  lemma {:induction false} UpgradeCommitsUnderCheck(db: Db)
    requires Consistent(db) && db.checked
    ensures Upgrade(db).Some?
  {
    UpgradeIsRenaming(db);
    UniqueKeyIsUniqueRows(db);
    var rows := Named(db);
    var renamed := RenameRows(UPGRADE_PAIRS, rows);
    forall a, b | a in renamed && b in renamed && renamed[a] == renamed[b] ensures a == b {
      UpAndDown(rows[a].role);
      UpAndDown(rows[b].role);
      assert rows[a].role in db.byName && rows[b].role in db.byName;
      assert rows[a] == rows[b];
    }
  }

  lemma AddCheckKeeps(db: Db)
    requires Consistent(db)
    ensures var r := AddCheck(db);
            && (r.Some? <==> forall n :: n in db.byName ==> ClassOf(n) == OldRole)
            && (r.Some? ==> Consistent(r.value) && r.value.checked && Named(r.value) == Named(db)
                            && r.value.byName == db.byName)
  {
  }

  /** downgrade() acts as the inverse renaming. It commits exactly when that keeps the unique
      key, leaves no assignment on a role it deletes, and no role outside the two lists exists. */
  lemma {:induction false} DowngradeIsRenaming(db: Db)
    requires Consistent(db) && !db.checked
    ensures var r := Downgrade(db);
            var renamed := RenameRows(DOWNGRADE_PAIRS, Named(db));
            && (r.Some? <==> (
                && UniqueRows(renamed)
                && (forall a :: a in renamed ==> ClassOf(renamed[a].role) != NewRole)
                && forall n :: n in db.byName ==> ClassOf(n) != OtherRole))
            && (r.Some? ==> (Consistent(r.value) && r.value.checked && Named(r.value) == renamed
                             && forall n :: n in r.value.byName <==> ClassOf(n) == OldRole))
  {
    hide Consistent, RepointThenDelete, InsertRoles, ClassOf, AddCheck, RenameRows, Named;
    InsertRolesKeeps(db, OLD_ROLE_ROWS, false);
    RowsByClass();
    PairFacts();
    var inserted := InsertRoles(db, OLD_ROLE_ROWS, false);
    RepointThenDeleteIsRenaming(inserted, DOWNGRADE_PAIRS, NewRole);
    var pruned := RepointThenDelete(inserted, DOWNGRADE_PAIRS, NewRole);
    if pruned.Some? {
      AddCheckKeeps(pruned.value);
    }
  }

  /** A custom role created after the migration, which the schema then allows. */
  function WithCustomRole(db: Db, text: string): Db {
    db.(roles := db.roles[db.nextRoleId := Role(Other(text), false, true)],
        byName := db.byName[Other(text) := db.nextRoleId],
        nextRoleId := db.nextRoleId + 1)
  }

  lemma WithCustomRoleConsistent(db: Db, text: string)
    requires Consistent(db) && !db.checked && Other(text) !in db.byName
    ensures Consistent(WithCustomRole(db, text))
  {
  }

  /** One custom role is enough to keep the migration from ever being undone, whatever table it
      started from: the role is not deleted, so the name check cannot come back. */
  lemma {:induction false} CustomRoleStopsDowngrade(db: Db, text: string)
    requires Consistent(db) && db.checked
    ensures Upgrade(db).Some?
    ensures var custom := WithCustomRole(Upgrade(db).value, text);
            Consistent(custom) && Downgrade(custom) == None
  {
    hide Consistent, Upgrade, Downgrade, ForeignKeys, RenameRows, UniqueRows, Named;
    UpgradeCommitsUnderCheck(db);
    UpgradeIsRenaming(db);
    NoOtherRole(db, text);
    var up := Upgrade(db).value;
    WithCustomRoleConsistent(up, text);
    DowngradeIsRenaming(WithCustomRole(up, text));
    assert Other(text) in WithCustomRole(up, text).byName && ClassOf(Other(text)) == OtherRole;
  }

  lemma NoOtherRole(db: Db, text: string)
    requires Consistent(db) && db.checked
    ensures Other(text) !in db.byName
  {
  }

  /** The empty original table, upgraded and given one custom role, cannot be downgraded. */
  lemma DowngradeFailsOn() returns (db: Db)
    ensures Consistent(db) && db.checked && Upgrade(db).Some?
    ensures Downgrade(WithCustomRole(Upgrade(db).value, "auditor")) == None
  {
    hide Upgrade, Downgrade;
    db := Db(map[], map[], map[], 0, true);
    CustomRoleStopsDowngrade(db, "auditor");
  }

  lemma RowsUpAndDown(rows: map<nat, NamedRow>)
    ensures var back := RenameRows(DOWNGRADE_PAIRS, RenameRows(UPGRADE_PAIRS, rows));
            back == rows && (forall a :: a in back ==> ClassOf(back[a].role) != NewRole)
            <==> forall a :: a in rows ==> ClassOf(rows[a].role) != NewRole
  {
    hide Rename, ClassOf;
    var back := RenameRows(DOWNGRADE_PAIRS, RenameRows(UPGRADE_PAIRS, rows));
    forall a | a in rows
      ensures back[a] == rows[a] && ClassOf(back[a].role) != NewRole <==> ClassOf(rows[a].role) != NewRole
    {
      UpAndDown(rows[a].role);
    }
    if forall a :: a in rows ==> ClassOf(rows[a].role) != NewRole {
      assert back == rows;
    }
  }

  /** downgrade() right after upgrade() restores every assignment up to role name exactly when
      no assignment started out on a new role and no role outside the two lists existed. */
  lemma {:induction false} RoundTripExactlyWhen(db: Db)
    requires Consistent(db) && Upgrade(db).Some?
    ensures var back := Downgrade(Upgrade(db).value);
            (back.Some? && ForeignKeys(back.value) && Named(back.value) == Named(db))
            <==> (&& (forall a :: a in Named(db) ==> ClassOf(Named(db)[a].role) != NewRole)
                  && forall n :: n in db.byName ==> ClassOf(n) != OtherRole)
  {
    hide UniqueKey, Upgrade, Downgrade, Rename, ClassOf, RenameRows, Named, UniqueRows;
    UpgradeIsRenaming(db);
    RowsUnique(db);
    RowsUpAndDown(Named(db));
    DowngradeIsRenaming(Upgrade(db).value);
  }

  /** From any assignment table the original schema allows, upgrade then downgrade is the
      identity up to role name. */
  lemma {:induction false} RoundTripUnderCheck(db: Db)
    requires Consistent(db) && db.checked
    ensures Upgrade(db).Some?
    ensures var back := Downgrade(Upgrade(db).value);
            back.Some? && ForeignKeys(back.value) && Named(back.value) == Named(db)
  {
    UpgradeCommitsUnderCheck(db);
    RoundTripExactlyWhen(db);
    forall a | a in Named(db) ensures ClassOf(Named(db)[a].role) != NewRole {
      assert Named(db)[a].role in db.byName;
    }
  }
}
