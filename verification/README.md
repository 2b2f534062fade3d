# OctoWatch: a Dafny model of its stateful core

This project models the parts of OctoWatch where a wrong step is hard to see, and proves what
those parts promise, for every input and over every run:

- `Sessions.dfy`: login sessions in an expiring key-value store, with the periodic role refresh of
  `get_current_user`. Logins, logouts, database commits, clock ticks and any number of requests
  interleave; every database statement and every store call is a step of its own. Over every run,
  `SessionAnswers.dfy` says what sessions and answers contain, `SessionKeys.dfy` when a key is there
  and until when; `SessionRuns.dfy` has the runs that reach these bounds.
- `AdminStore.dfy`, `AdminApi.dfy`, `AdminRaces.dfy`: the teams, roles and assignments endpoints
  over five tables. The first states each endpoint as a transaction and proves the invariant of
  every reachable table; the second has the endpoints as methods that change the tables in place;
  the third lets other requests come between an endpoint's lookups and its insert.
- `Slug.dfy`, `Permissions.dfy`: team slugs and the normal form of custom permission lists.
- `RoleMigration.dfy`: migration 0039, upgrade and downgrade, over any assignment table.
- `TagChecker.dfy`: the tag-nesting stack machine against the grammar of nested words.
- `AuditPager.dfy`: the paged audit log against its one-shot export, with every order the database
  may choose among equal timestamps.
- `SeedCheckpoint.dfy`: the demo seeder's phases, checkpoint file and events table under crashes.
- `SeedWindows.dfy`, `SeedCounts.dfy`, `SeedNames.dfy`, `SeedBatches.dfy`, `Decimals.dfy`: how the
  seeder cuts time, sizes organisations, makes names unique and writes rows.

Pure code is functions with lemmas. Code that updates state is a class whose methods change its
fields, or a method with loops, proved equal to a function on values; the lemmas are about that
function. Protocols with interference or crashes are state machines, and the results are about
every sequence of their events. `dafny verify dfyconfig.toml` checks everything.

## Where the code and its own words differ

- `delete_role` says it revokes all assignments first. It only deactivates them, and the flush then
  fails on the rows that still carry the role: the ORM sets their `role_id` to NULL, which the
  column refuses, and the foreign key behind it has no ON DELETE action. A role goes away exactly
  when no assignment row, active or not, refers to it (`DeleteRoleCommitsExactlyWhen`,
  `GrantedRoleCannotBeDeleted`).
- `get_current_user` says it falls back to cached roles when a refresh fails. It does so exactly
  while the role statements have not both returned (`FallbackIsCachedExactlyWhen`); when the scope
  is what fails, the answer carries the fresh roles with the old scope (`FallbackCanMixSnapshots`).
- A session lookup is there to "support immediate revocation", and the write-back to preserve the
  TTL. TTL and SETEX are two calls: a logout between them is undone
  (`LogoutIsFinalExactlyWhen`, `LoggedOutSessionCanReturn`), and the deadline moves by the time
  between them (`WriteBackMovesTheDeadline`).
- The refresh interval bounds how old roles can be only up to the time between the first role
  statement and the refresh time, which is taken after it (`AnswersAreTimely`,
  `TimelinessIsTight`). Roles and scope come from four statements, and a commit between them can
  be half seen (`OneSnapshotExactlyWhen`, `StoredSessionCanMix`).
- `create_role_assignment` checks for duplicates. Two requests at once can both pass the check, and
  later requests for that grant then fail on the lookup (`DuplicatesExactlyWhenOvertaken`,
  `TwoGrantsAtOnce`).
- `downgrade` says custom roles are deleted. It does not delete them, so re-adding the name check
  fails while one exists (`DowngradeIsRenaming`, `CustomRoleStopsDowngrade`).
- The seeder's design document says a resumed run deletes the events of a partial window; the code
  deletes every demo event. A run without `--resume` keeps an old completion time beside an
  unfinished phase (`StaleExactlyWhenRestarted`), and a first run without bots never gets one
  (`RunPhases`). The clean-up of the events phase deletes the bot events too, and leaves a bot
  phase that is done without its rows (`DoneBotsHaveRowsExactlyWhen`, `DoneBotsCanHaveNoRows`). The
  growth trend of the event counts is computed over one day slice at a time and so never grows
  (`NoGrowth`).
- The audit log orders by timestamp only, so paging can repeat and lose rows when equal timestamps
  lie across a page end (`PagingIsStableExactlyWhen`).

## Assumptions

- Sessions: one SELECT sees one database state; NOW() is the second of the first statement, since
  the four share one transaction; each store call is one step, and one that raises has no effect;
  the clock counts whole seconds and starts beyond one refresh interval.
- Admin endpoints: any outcome other than success rolls back. `AdminStore` and `AdminApi` serve one
  request at a time; in `AdminRaces` the lookups of a creating request are one step and its INSERT
  with the commit another, and every other request is one step.
- Migration: each migration is one transaction.
- Seeder: saving the checkpoint file is atomic, and a crash stops the worker processes too.
- Arithmetic of the seeder is exact where the script uses floating point.

## Model

| member | source | states |
|---|---|---|
| SessionAnswers.StoredSessionIsOneSnapshot | backend/app/deps.py:174-195 | over every interleaving, a stored session is what one refresh or login saw with its four statements, in whatever order write-backs land; it is of one snapshot, for all database contents, if and only if no commit fell between those statements |
| SessionAnswers.OneSnapshotExactlyWhen | backend/app/services/rbac_service.py:349-361 | in any state, four statements give a session of one snapshot, for all contents, if and only if no commit fell between the first of them, any two, and the last |
| SessionRuns.StoredSessionCanMix | backend/app/deps.py:181-189 | a concrete run after which a session written by a refresh that did not fail matches no single version |
| SessionRuns.RefreshCanMixVersions | backend/app/deps.py:178-195 | whatever the contents, a commit between role and scope statements makes a completed refresh store roles of one version with the scope of the next |
| SessionAnswers.AnswersAreTimely | backend/app/deps.py:166-212 | unless the login is exempt or a role statement failed, an answer's roles are what its two role statements saw, no more than one interval and the run's longest role pass before the age check; with no failure so is the scope |
| SessionRuns.TimelinessIsTight | backend/app/deps.py:166-184 | that bound is reached: for any delay of the role pass there is a cached answer with roles replaced one interval and that delay before |
| SessionAnswers.RevocationTakesEffect | backend/app/deps.py:166-170 | a change committed more than that bound before a request's age check is visible in that request's roles |
| SessionAnswers.LapseTakesEffect | backend/app/services/rbac_service.py:344-346 | a grant that lapses by its expiry date more than that bound before the age check is gone from the answer, without any commit |
| SessionAnswers.AnswerIsOneRefresh | backend/app/deps.py:166-212 | over every run, unless the scope is what failed, an answer is what one refresh or login saw; one version explains it, for all contents, if and only if no commit fell between its statements |
| SessionAnswers.AnswerFieldByField | backend/app/deps.py:166-232 | over every run, each field of each answer: what the request's own statements gave as far as they got, the cached session for the rest; global if and only if the roles shown hold sys_admin or super_admin or the scope shown is global |
| SessionAnswers.NobodyElsesSession | backend/app/deps.py:147-161 | over every run, a stored session is of the login that drew its id, and an answer is about the login whose session id the request came with |
| SessionAnswers.OneOwner | backend/app/routers/auth.py:111-124 | a session id has one owner, and a request one session id |
| SessionRuns.SignInStores | backend/app/routers/auth.py:107-124 | a login that runs its statements leaves what they gave under a new id for one TTL |
| SessionRuns.SetUpStores | backend/app/routers/setup.py:104-130 | the setup wizard's session is stored with its administrator role for one TTL |
| SessionAnswers.OneVersionExactlyWhen | backend/app/deps.py:178-212 | four statements give an answer of one version, for all contents, if and only if no commit fell between them |
| SessionAnswers.FallbackIsCachedExactlyWhen | backend/app/deps.py:178-210 | a failed refresh leaves the store alone and answers with the cached roles, for all database contents, if and only if the role statements had not both returned; with the cached organisations and repositories if and only if the scope statements had not |
| SessionRuns.FallbackCanMixSnapshots | backend/app/deps.py:184-210 | a concrete run whose failed refresh pairs fresh roles with the old scope, explained by no single version |
| SessionKeys.ResurrectionExactlyWhen | backend/app/deps.py:192-195 | over every run, a key that is gone can come back if and only if some request still under way read its TTL while it was there and has not written yet |
| SessionKeys.NoResurrection | backend/app/deps.py:192-195 | a key that is gone while no request stands between TTL and SETEX never comes back |
| SessionKeys.ReturnsExactlyWhen | backend/app/deps.py:192-195 | in any state, a key that is gone has a continuation that brings it back if and only if a write-back of it is open |
| SessionKeys.WriteBackMovesTheDeadline | backend/app/deps.py:192-195 | over every run, a write-back sets the deadline the key had when its TTL was read plus exactly the time since |
| SessionKeys.DeadlineIsFixed | backend/app/deps.py:192-195 | over every run, a deadline never moves earlier, and later by no more than its write-backs spent between their two calls: fixed when they spent none, even across a removal and return |
| SessionKeys.SessionLivesOneTtl | backend/app/services/auth_service.py:55-69 | a login stores its session for one TTL, and it is dead after that plus what its write-backs spent between their two calls |
| SessionKeys.LivesUntilDeadline | backend/app/services/auth_service.py:55-69 | a session that nobody logs out is there until its deadline, whatever else happens |
| SessionKeys.LogoutIsFinalExactlyWhen | backend/app/routers/auth.py:191-200 | a logout is final, and every later lookup rejected, if and only if no request stood between the session's TTL and its SETEX |
| SessionRuns.LogoutCanBeUndone | backend/app/deps.py:192-195 | from any refresh about to write, a logout between its two calls is undone and the deadline moves by the time between them |
| SessionRuns.LoggedOutSessionCanReturn | backend/app/routers/auth.py:191-200 | a concrete run from a fresh service in which a logged-out session is in the store again |
| SessionRuns.RefreshIsReused | backend/app/deps.py:192-212 | a completed refresh is what the next request reads and is served from without another refresh |
| Sessions.RunKeepsInv | backend/app/deps.py:107-232 | every run of logins, logouts, requests, ticks and commits keeps the session invariant |
| Sessions.StepKeepsInv | backend/app/deps.py:107-232 | one step keeps the session invariant |
| Sessions.SessionStore.GetCurrentUser | backend/app/deps.py:152-232 | the uninterrupted call does what the request's own steps do: a missing key is rejected, and otherwise all five fields of the answer and the store follow from the entry read and what the statements returned |
| Sessions.SessionStore.TryRefresh | backend/app/deps.py:178-210 | the session in hand and the store after a refresh that ends or fails at any of its points, field by field |
| AdminStore.ServeKeepsInv | backend/app/routers/admin_teams.py:59-575 | every endpoint keeps the tables' invariant, and no one-row lookup ever finds several rows |
| AdminStore.ServeKeepsCore | backend/app/models/team.py:24-93 | even where a grant is held twice, every endpoint keeps all other rules, and only the duplicate lookup of a grant can find several rows |
| AdminStore.RunKeepsInv | backend/app/routers/admin_teams.py:59-575 | the invariant holds after any sequence of requests |
| AdminStore.ReachableTables | backend/app/models/team.py:24-93 | from a fresh deployment: slugs follow names and are distinct, links resolve, grants are unique and active, custom permission lists are sorted, well formed and without the global wildcard |
| AdminStore.ViolationExactlyWhen | backend/app/routers/admin_roles.py:304-317 | served one at a time, a constraint fires only for a role delete with assignments left or a scope value that does not fit; no insert meets a unique or foreign key it breaks |
| AdminStore.SystemRolesConstant | backend/app/routers/admin_roles.py:228-302 | the set of system roles and all their fields are constant over every run |
| AdminStore.LikeMeansSameSlug | backend/app/routers/admin_teams.py:68-72 | the name-or-slug lookup matches by slug alone and finds at most one team |
| AdminStore.CreateTeamConflictsExactlyWhen | backend/app/routers/admin_teams.py:66-90 | a new team is refused if and only if an existing name has the same alphanumeric runs; otherwise its row is added, slug and details included, and nothing else changes |
| AdminStore.UpdateTeamEffect | backend/app/routers/admin_teams.py:261-292 | a rename is refused if and only if another team's name has the same runs; otherwise only that row changes: name, slug and each of the four details from the request or as they were |
| AdminStore.TeamRequestsRefused | backend/app/routers/admin_teams.py:254-262 | a team that is not there is neither updated nor deleted |
| AdminStore.DeleteTeamRemovesItsOwn | backend/app/routers/admin_teams.py:318-330 | a delete removes the team, its memberships and its bindings, and nothing else |
| AdminStore.TeamLeavesNoTrace | backend/app/routers/admin_teams.py:318-330 | create a team, let any requests rename it and change its members and roles, delete it: every table is what it was |
| AdminStore.AddMemberEffect | backend/app/routers/admin_teams.py:365-391 | refusal exactly for a missing team or a present member; otherwise exactly that row is added, and removing it restores the table |
| AdminStore.RemoveMemberEffect | backend/app/routers/admin_teams.py:425-439 | exactly the row of that team and user is removed, or the request refused when there is none |
| AdminStore.AssignTeamRoleEffect | backend/app/routers/admin_teams.py:474-508 | refusal exactly for a missing team, a missing role or a bound pair; otherwise exactly that row is added, its organisation included, and unbinding restores the table |
| AdminStore.RemoveTeamRoleEffect | backend/app/routers/admin_teams.py:546-560 | exactly the row of that team and role is removed, or the request refused when there is none |
| AdminStore.CreateRoleEffect | backend/app/routers/admin_roles.py:152-181 | a role is created if and only if its name is free and every permission well formed; exactly its row is added, with the requested permissions as a strictly sorted list |
| AdminStore.UpdateRoleEffect | backend/app/routers/admin_roles.py:228-243 | an update changes one row alone: it replaces what it names, keeps the rest, and fails as a whole on a malformed permission |
| AdminStore.RoleRequestsRefused | backend/app/routers/admin_roles.py:223-234 | a missing role or a system role is neither updated nor deleted |
| AdminStore.DeleteRoleCommitsExactlyWhen | backend/app/routers/admin_roles.py:293-317 | a role delete commits if and only if the role is custom and no assignment refers to it, so it never revokes anything; its bindings go with it |
| AdminStore.GrantedRoleCannotBeDeleted | backend/app/routers/admin_roles.py:301-317 | from any deployment, create a role, grant it, delete it: the delete is refused and changes nothing |
| AdminStore.CreateAssignmentEffect | backend/app/routers/admin.py:110-144 | a grant is created if and only if it is new for that scope type and its scope value fits; exactly that row is added, its scope value included, and deleting it restores the table |
| AdminStore.DeleteAssignmentEffect | backend/app/routers/admin.py:183-192 | a grant is deleted exactly when it exists, and nothing else changes; a role name no role bears is not granted |
| AdminStore.DuplicateLookupNeedsReachableTable | backend/app/routers/admin.py:119-127 | a table the unique index allows on which the duplicate lookup finds several rows, and which requests served one at a time never reach |
| AdminStore.CreateAssignmentKeeps | backend/alembic/versions/0001_initial_schema.py:204-223 | creating a grant keeps the tables in order; where no grant is held twice its lookup finds one row at most and the wider unique index never fires |
| AdminApi.ScalarOneOrNone | backend/app/routers/admin_teams.py:72 | nothing for an empty result, the row for one, an error for several |
| AdminApi.DbSession.PatchTeam | backend/app/routers/admin_teams.py:254-292 | the in-place endpoint, field by field, equals the transaction on values |
| AdminApi.DbSession.RemoveRole | backend/app/routers/admin_roles.py:293-317 | deactivating one assignment after another and then failing on the foreign key restores the table |
| AdminApi.DbSession.Handle | backend/app/routers/admin_teams.py:59-575 | each of the twelve in-place endpoints does what its transaction on values says, tables and outcome, and leaves every table alone unless it succeeds |
| AdminApi.DbSession.ServeAll | backend/app/models/team.py:24-93 | a deployment that serves any requests ends with its tables as promised and its system roles untouched, and no request fails on a one-row lookup |
| AdminRaces.CheckThenInsertIsServe | backend/app/routers/admin_teams.py:66-90 | with nothing in between, an endpoint's lookups followed by its constrained insert are the whole endpoint |
| AdminRaces.LookThenFinishIsServe | backend/app/routers/admin_teams.py:66-90 | in the machine, looking up and finishing at once serves the request and leaves no flight behind |
| AdminRaces.WholeRequestsRunSerially | backend/app/database.py:64-72 | requests that do not overlap are served one after the other, whatever is in flight |
| AdminRaces.TeamInsertExactlyWhen | backend/app/models/team.py:24-27 | a team's row comes in exactly when no team has its name or its slug |
| AdminRaces.MemberInsertExactlyWhen | backend/app/models/team.py:53-60 | a membership comes in exactly when its team is there and the user is not in it |
| AdminRaces.BindingInsertExactlyWhen | backend/app/models/team.py:73-84 | a binding comes in exactly when team and role are there and not bound to one another |
| AdminRaces.RoleInsertExactlyWhen | backend/alembic/versions/0001_initial_schema.py:169-178 | a role comes in exactly when no role has its name |
| AdminRaces.GrantInsertExactlyWhen | backend/alembic/versions/0001_initial_schema.py:204-223 | a grant comes in exactly when its scope value fits its type, its role is there, and no grant has its login, role, scope type and value |
| AdminRaces.InsertKeepsCore | backend/app/models/team.py:24-84 | whatever happened since its lookups, a row the constraints let in leaves keys, foreign keys, slugs and permission lists in order |
| AdminRaces.RacesKeepTheTables | backend/app/models/team.py:24-93 | however requests interleave, the constrained invariant holds, and of all one-row lookups only a grant's duplicate lookup can find several rows |
| AdminRaces.DuplicatesExactlyWhenOvertaken | backend/app/routers/admin.py:119-144 | over every interleaving, a login holds a role twice in one scope type at some moment if and only if some grant's own lookup found none like it, one like it then came in, and after that its insert committed beside one |
| AdminRaces.GrantPassedItsLookup | backend/app/routers/admin.py:119-132 | over every interleaving, a grant under way had found no other of its login, role and scope type when it looked, and has been under way ever since |
| AdminRaces.TwoGrantsAtOnce | backend/app/routers/admin.py:119-144 | from any deployment, two grants requested together both come in, and every later request for that grant fails on its lookup |
| Slug.SlugIsJoinedRuns | backend/app/routers/admin_teams.py:46-47 | the slug is the lowered name's maximal alphanumeric runs joined by single hyphens, or "team" when there are none |
| Slug.SlugShape | backend/app/routers/admin_teams.py:41-45 | a slug is non-empty, holds only [a-z0-9-], and has no leading, trailing or doubled hyphen |
| Slug.SlugInPlainCharacters | backend/app/routers/admin_teams.py:46-47 | lower-case letters and digits are kept; anything else is dropped at the ends and one hyphen between; a name without them becomes team |
| Slug.RunsOfSlug | backend/app/routers/admin_teams.py:46-47 | reading a slug back gives the runs it was made from |
| Slug.SlugCollision | backend/app/routers/admin_teams.py:46-47 | two names collide if and only if their run lists agree, no runs counting as "team" |
| Slug.SlugIdempotent | backend/app/routers/admin_teams.py:40-47 | slugging a slug changes nothing |
| Slug.ReplaceIsPaddedJoin | backend/app/routers/admin_teams.py:46 | the substitution leaves the joined runs with at most one hyphen on either side |
| Permissions.ValidatePermissions | backend/app/routers/admin_roles.py:48-76 | succeeds if and only if every entry is well formed, and then returns the strictly sorted distinct entries |
| Permissions.NoErrorExactlyWhenWellFormed | backend/app/routers/admin_roles.py:56-69 | the split-based tests accept exactly a known or wildcard resource and action around one colon, never both wildcards |
| Permissions.ErrorIs | backend/app/routers/admin_roles.py:56-69 | which error an entry gets: the global wildcard, not one colon, an unknown resource, or an unknown action, looked for in this order |
| Permissions.ErrorsInOrder | backend/app/routers/admin_roles.py:52-75 | the errors are those of the malformed entries, one each and in request order |
| Permissions.ValidExactlyWhenWellFormed | backend/app/routers/admin_roles.py:55-75 | no error is recorded if and only if every entry is well formed |
| Permissions.SplitInTwo | backend/app/routers/admin_roles.py:59-63 | a string splits in two exactly when it is two colon-free parts around one colon |
| Permissions.SplitThenJoin | backend/app/routers/admin_roles.py:59 | joining the split parts gives the string back |
| Permissions.SortedDistinctIsSorted | backend/app/routers/admin_roles.py:76 | the result is strictly sorted with exactly the given entries |
| Permissions.LessIsLexicographic | backend/app/routers/admin_roles.py:76 | the order is that of the first characters that differ, a proper prefix coming first |
| Permissions.SortedListingIsUnique | backend/app/routers/admin_roles.py:76 | a set of entries has one strictly sorted listing |
| Permissions.OutcomeDependsOnTheSet | backend/app/routers/admin_roles.py:48-76 | order and repetition of the request do not matter |
| Permissions.NormalFormIsFixed | backend/app/routers/admin_roles.py:48-76 | a stored list validates again to itself |
| RoleMigration.SequentialIsSimultaneous | backend/alembic/versions/0039_rbac_enhanced_roles_permissions.py:101-129 | updates in sequence equal one simultaneous renaming, keep every row id and all constraints, and succeed exactly when the renaming keeps the unique key |
| RoleMigration.RepointIsRename | backend/alembic/versions/0039_rbac_enhanced_roles_permissions.py:104-108 | one update renames one role in every row and keeps the unique key, or fails exactly when it cannot |
| RoleMigration.UpgradeIsRenaming | backend/alembic/versions/0039_rbac_enhanced_roles_permissions.py:53-136 | upgrade commits exactly when no login holds an old role and its replacement in one scope; it renames every row and leaves no reference to a deleted role |
| RoleMigration.UpgradeRenames | backend/app/services/rbac_service.py:41-46 | upgrade's renaming is the migration map of the RBAC service, and maps nothing to an old role |
| RoleMigration.UpgradeCommitsUnderCheck | backend/alembic/versions/0001_initial_schema.py:169-178 | under the original name check upgrade always commits |
| RoleMigration.InsertsMarkSystem | backend/alembic/versions/0039_rbac_enhanced_roles_permissions.py:60-99 | the upsert leaves every inserted role a system role, old or new |
| RoleMigration.UpgradeSeedsSystemRoles | backend/alembic/versions/0039_rbac_enhanced_roles_permissions.py:60-99 | after upgrade the seven roles it introduces are all there, as system roles |
| RoleMigration.DowngradeIsRenaming | backend/alembic/versions/0039_rbac_enhanced_roles_permissions.py:139-211 | downgrade commits exactly when the inverse renaming keeps the unique key, no row stays on a deleted role and no other role exists; exactly the four old roles are then there |
| RoleMigration.CustomRoleStopsDowngrade | backend/alembic/versions/0039_rbac_enhanced_roles_permissions.py:198-211 | from any original table, one custom role created after the upgrade keeps downgrade from ever committing |
| RoleMigration.DowngradeFailsOn | backend/alembic/versions/0039_rbac_enhanced_roles_permissions.py:198-211 | a concrete database, reached by upgrade plus one custom role, on which downgrade fails |
| RoleMigration.RoundTripExactlyWhen | backend/alembic/versions/0039_rbac_enhanced_roles_permissions.py:24-211 | upgrade then downgrade restores every assignment up to role name if and only if none started on a new role and no other role existed |
| RoleMigration.RoundTripUnderCheck | backend/alembic/versions/0039_rbac_enhanced_roles_permissions.py:24-211 | from any assignment table the original schema allows, upgrade then downgrade is the identity up to role name |
| RoleMigration.DeleteRolesKeeps | backend/alembic/versions/0039_rbac_enhanced_roles_permissions.py:131-136 | the delete succeeds exactly when no row refers to a deleted role, and changes no assignment |
| RoleMigration.MigrationSession.RunUpgrade | backend/alembic/versions/0039_rbac_enhanced_roles_permissions.py:24-136 | the statements in place give the migration on values, or restore the tables |
| RoleMigration.MigrationSession.RunDowngrade | backend/alembic/versions/0039_rbac_enhanced_roles_permissions.py:139-211 | the statements in place give the inverse migration on values, or restore the tables |
| RoleMigration.MigrationSession.ExecuteUpdate | backend/alembic/versions/0039_rbac_enhanced_roles_permissions.py:104-108 | one UPDATE in place, or no change when a constraint stops it |
| TagChecker.CleanIffBalanced | scripts/quality_check.py:14-31 | no error and an empty stack if and only if the non-void tags form a word of the matching-tags grammar |
| TagChecker.StackIsTheMissingClosers | scripts/quality_check.py:14-31 | with no error, exactly the closers on the stack complete the input to a balanced word |
| TagChecker.NoErrorIffPrefixOfBalanced | scripts/quality_check.py:24-31 | an error is reported exactly when no continuation makes the input balanced |
| TagChecker.CheckNesting | scripts/quality_check.py:33-41 | for every document the report lists the first ten refused closers, each with the tag then open, and the tags that stay open without them; it is empty if and only if the document is balanced |
| TagChecker.RefusedClosersOnly | scripts/quality_check.py:24-31 | for every document, the errors are exactly the closers after which nothing could balance what was kept, in order, each with the tag then open; without them the run is clean and ends on the same stack |
| TagChecker.StackIsWhatStaysOpen | scripts/quality_check.py:21-31 | for every document, the stack is that of the document without its refused closers: the tags whose closing would balance it |
| TagChecker.OpenTagsUnique | scripts/quality_check.py:24-31 | only one list of open tags balances a word |
| TagChecker.VoidElements | scripts/quality_check.py:18-19 | the fourteen elements that neither open nor close |
| TagChecker.ParseCleanRun | scripts/quality_check.py:14-31 | any clean run from a stack reads matched words between the stack's closers |
| TagChecker.ForestIsNeutral | scripts/quality_check.py:21-28 | a matched word leaves any stack and error list as they were |
| TagChecker.RunIgnoresVoid | scripts/quality_check.py:21-26 | void tags change nothing |
| TagChecker.Validator.HandleStartTag | scripts/quality_check.py:21-23 | a non-void tag goes on the stack, and nothing else changes |
| TagChecker.Validator.HandleEndTag | scripts/quality_check.py:24-31 | a closer of the top takes it off; any other is recorded with the tag then open and leaves the stack alone |
| TagChecker.Validator.Feed | scripts/quality_check.py:33-34 | feeding a document runs the machine over its tags |
| AuditPager.PagesAreTheExport | backend/app/routers/admin_audit_log.py:71-154 | in one order, the pages concatenate to every matching row once, which is what the export writes up to its cap; above it the export refuses |
| AuditPager.PagingIsStableExactlyWhen | backend/app/routers/admin_audit_log.py:75-79 | for every order ties may come back in on each page, paging returns each matching row exactly once if and only if no tie lies across a page end |
| AuditPager.SameRowsBeforeACut | backend/app/routers/admin_audit_log.py:77 | where the timestamp strictly falls, every listing holds the same rows before the cut |
| AuditPager.TieLosesARow | backend/app/routers/admin_audit_log.py:75-79 | a tie across a page end has orders under which a row is lost |
| AuditPager.FetchAll | backend/app/routers/admin_audit_log.py:76-103 | asking for pages while more is promised ends, after the last page |
| AuditPager.ListAuditLog | backend/app/routers/admin_audit_log.py:71-103 | full pages while more is promised, then the rest, and nothing beyond the end; each item is the listing's row at its own position |
| AuditPager.ExportAuditLog | backend/app/routers/admin_audit_log.py:138-187 | a file exactly up to the cap, and then with the whole listing: the LIMIT cuts nothing off |
| SeedCheckpoint.DoneIsEarned | scripts/seed_demo_data.py:376-396 | a phase stands as done only if its seeding returned under that seed, and a done events phase means one generation's rows |
| SeedCheckpoint.LaunchStartsOnItsSeed | scripts/seed_demo_data.py:376-381 | a launch starts on a checkpoint of its own seed, in which a phase is done if and only if the file is of that seed and has it done |
| SeedCheckpoint.LaunchKeepsItsSeed | scripts/seed_demo_data.py:1447-1577 | over every run, a process keeps the seed and flags of its launch, all it saves carries that seed, and under a new seed it marks every phase it reaches |
| SeedCheckpoint.EventsDoneMeansOneGeneration | scripts/seed_demo_data.py:1135-1142 | over every run, the step that makes the events phase done leaves as demo-tagged rows exactly the running generation's, whatever was committed before |
| SeedCheckpoint.RealRowsUntouched | scripts/seed_demo_data.py:1137-1139 | rows that are not demo rows stay as they are, over every run |
| SeedCheckpoint.DoneNeverReverts | scripts/seed_demo_data.py:1451-1575 | over resuming runs of one seed crashing anywhere, done phases stay done |
| SeedCheckpoint.CompletionMeansAllDone | scripts/seed_demo_data.py:388-392 | over resuming runs, a completion time means all seven phases are done |
| SeedCheckpoint.StaleExactlyWhenRestarted | scripts/seed_demo_data.py:376-396 | over any launches of any seeds and flags, crashing anywhere: the file at some moment holds a completion time beside an unfinished phase if and only if a run without resume was launched over the completed checkpoint of its own seed and took its first step |
| SeedCheckpoint.CompletionBreaksExactlyWhen | scripts/seed_demo_data.py:388-396 | the single step that does so is a phase start of a run without resume over a completed checkpoint |
| SeedCheckpoint.RestartKeepsCompletionTime | scripts/seed_demo_data.py:388-396 | a run from an empty start that leaves a completion time beside an unfinished phase |
| SeedCheckpoint.BotRowsStayExactlyWhen | scripts/seed_demo_data.py:1135-1142 | over every run, the rows of a bot pass that returned are all there at the end if and only if no events phase has cleaned up since |
| SeedCheckpoint.DoneBotsHaveRowsExactlyWhen | scripts/seed_demo_data.py:1562-1575 | a bot phase the file calls done has returned under that seed at some step of the run; its rows are still there if and only if no events phase has cleaned up since |
| SeedCheckpoint.DoneBotsCanHaveNoRows | scripts/seed_demo_data.py:1135-1142 | a run from an empty start, with bots in every launch, that ends completed with all phases done and no bot row: finish, start over, stop after the clean-up, resume |
| SeedCheckpoint.RunKeepsInv | scripts/seed_demo_data.py:1409-1585 | launches, steps, slice commits and crashes keep the invariant |
| SeedCheckpoint.StepKeepsInv | scripts/seed_demo_data.py:1409-1585 | one launch, step, slice commit or crash keeps the invariant |
| SeedCheckpoint.Seeder.MarkAndSave | scripts/seed_demo_data.py:388-392 | marking one phase, setting the completion time when that makes all done, and saving the file |
| SeedCheckpoint.Seeder.RunPhases | scripts/seed_demo_data.py:1447-1577 | left alone, a run closes every phase its flags reach and keeps the others; a completion time appears exactly when the last open phase closes |
| SeedWindows.SlicesPartitionTheWindow | scripts/seed_demo_data.py:1157-1170 | the day slices of all workers are consecutive, non-empty, at most a day long, and hold every second of the window exactly once |
| SeedWindows.TimestampsStayExactlyWhen | scripts/seed_demo_data.py:952-1041 | no timestamp can leave its slice if and only if every slice is whole hours long or draws no event in the hour its end cuts short |
| SeedWindows.TwoOrgsStayExactlyWhen | scripts/seed_demo_data.py:952-1041 | with two organisations or more, no timestamp can leave its slice if and only if the per-worker chunk is a whole number of hours |
| SeedWindows.NoQuietHour | scripts/seed_demo_data.py:958-989 | with two organisations or more every hour has an event, whatever the draw |
| SeedWindows.OneOrgCanBeQuiet | scripts/seed_demo_data.py:958-989 | with a single organisation an hour can stay empty |
| SeedWindows.NoGrowth | scripts/seed_demo_data.py:972-974 | one call covers a day at most, so its growth factor is always one |
| SeedWindows.OvershootBelowAnHour | scripts/seed_demo_data.py:958-995 | a timestamp passes its slice's end by less than an hour at most |
| SeedWindows.EveryHourOnce | scripts/seed_demo_data.py:952-1041 | with whole-hour chunks every hour of the window is generated once, in order |
| SeedWindows.SplitAcrossWorkers | scripts/seed_demo_data.py:1157-1170 | the windows the loop builds |
| SeedWindows.WorkerWindows | scripts/seed_demo_data.py:1157-1170 | worker i gets the i-th chunk, the last all that is left |
| SeedWindows.CutIntoDays | scripts/seed_demo_data.py:1069-1108 | the day slices the loop builds |
| SeedWindows.DaySlices | scripts/seed_demo_data.py:1069-1108 | every slice but a worker's last is a whole day, and the last ends with the worker's window |
| SeedWindows.GenerateHours | scripts/seed_demo_data.py:952-1041 | the hour starts the loop visits |
| SeedWindows.HourStarts | scripts/seed_demo_data.py:952-1041 | the hour starts are 3600 seconds apart from the slice's start on |
| SeedWindows.CountOfAnHour | scripts/seed_demo_data.py:953-989 | how many events an hour gets, from organisations, weekday, hour of day and draw |
| SeedCounts.Share | scripts/seed_demo_data.py:415 | the floor of users over the rank to the power 3/2, by squares |
| SeedCounts.PowerLawMemberCounts | scripts/seed_demo_data.py:409-421 | up to reordering, the i-th size is 5 or the raw count of rank i scaled to twice the users, the raw count 5 or the whole part of users over i to the power 3/2; the sum lies within its rounding bounds |
| SeedCounts.MemberCountsFollowPowerLaw | scripts/seed_demo_data.py:414-419 | before the shuffle the sizes are those, by rank |
| SeedCounts.MemberCountsSum | scripts/seed_demo_data.py:416-419 | 2 users - orgs < sum of sizes <= 2 users + 5 orgs |
| SeedCounts.CountsFallWithRank | scripts/seed_demo_data.py:414-419 | before the shuffle the sizes never grow with the rank |
| SeedCounts.SumOfPermutation | scripts/seed_demo_data.py:420 | reordering keeps the sum |
| SeedCounts.Shuffle | scripts/seed_demo_data.py:420 | shuffling in place keeps the multiset, for any choices |
| SeedCounts.Round | scripts/seed_demo_data.py:639 | rounding to the nearest integer, ties to even |
| SeedCounts.RepoCountsSum | scripts/seed_demo_data.py:636-641 | the repository counts sum to between repos - orgs / 2 and repos + orgs |
| SeedCounts.RepoCountsAreShares | scripts/seed_demo_data.py:636-641 | each organisation gets its share by member count, rounded to the nearest integer with ties to even, and at least one |
| SeedNames.SeedLogins | scripts/seed_demo_data.py:563-572 | terminates for every random choice with distinct logins, each its generated name, followed by digits only when that was taken |
| SeedNames.FreshLogin | scripts/seed_demo_data.py:568-570 | the retry loop ends with a new login: the base, or the base and digits when it was taken |
| SeedNames.SeedBotLogins | scripts/seed_demo_data.py:1217-1230 | terminates with distinct bot names, each stem[bot], or stem-n[bot] when that was taken |
| SeedNames.FreshBotLogin | scripts/seed_demo_data.py:1221-1228 | the plain name when free, and otherwise the first free number, within as many tries as names were seen |
| SeedNames.CandidatesDiffer | scripts/seed_demo_data.py:1227 | differently numbered names differ |
| SeedBatches.SeedOrgs | scripts/seed_demo_data.py:473-518 | every organisation is written once, in order, in batches full but for the last; the total is the table's size |
| SeedBatches.SeedMembers | scripts/seed_demo_data.py:575-615 | every sampled membership is written once, in shuffled order; nothing is dropped as a conflict |
| SeedBatches.SeedRepos | scripts/seed_demo_data.py:633-708 | every repository goes through the flush buffer once and in order; nothing is dropped; the total is the table's size |
| SeedBatches.SeedReposOf | scripts/seed_demo_data.py:656-690 | one organisation's rows pass through the buffer in order, flushed exactly when full |
| SeedBatches.WriteInSlices | scripts/seed_demo_data.py:493-518 | slicing by batch size writes the whole list in order |
| SeedBatches.OrgNamesDiffer | scripts/seed_demo_data.py:475-477 | the padded index makes organisation names distinct |
| SeedBatches.MembershipKeysDistinct | scripts/seed_demo_data.py:581-596 | sampling without replacement makes (organisation, login) distinct |
| SeedBatches.RepoKeysDistinct | scripts/seed_demo_data.py:655-662 | the padded index makes (organisation, repository) distinct |
| SeedBatches.DistinctKeysAllInserted | scripts/seed_demo_data.py:498-503 | with distinct keys, ON CONFLICT DO NOTHING drops nothing |
| SeedBatches.ConflictsKeepTheFirst | scripts/seed_demo_data.py:498-503 | with any keys, the table keeps its rows, its keys stay distinct, every key offered is in it, and what is added is the first row offered with its key |
| SeedBatches.MembershipRowAt | scripts/seed_demo_data.py:581-596 | each sampled member has its row at its place |
| SeedBatches.RepoRowAt | scripts/seed_demo_data.py:655-662 | each repository has its row at its place, named and numbered |
| Decimals.ValueOfPadded | scripts/seed_demo_data.py:476 | a zero-padded index parses back to the index |
| Decimals.PaddedToFour | scripts/seed_demo_data.py:476 | padding fills up to four digits, and a longer index is not padded |
| Decimals.NumberedNamesDiffer | scripts/seed_demo_data.py:476 | names that end in different padded indices differ, whatever precedes them |

## Left out

- Sessions.Apply: token decoding, cookies and the display fields of a session are not modelled; a request starts at the store lookup.
- AdminStore.Serve: audit rows, authors and timestamps of the endpoints are not modelled; one counter stands for the id sequences.
- AdminRaces.Step: other requests between the lookups and the writes of a rename, a role update or a removal are not modelled.
- AdminStore.CreateAssignment: the request's expiry, which the endpoint accepts and does not store, and the GitHub team and SAML fields are not modelled.
- RoleMigration.MarkSystem: display names, descriptions and permission lists of the seeded roles are static data and are not modelled.
- AuditPager.Matching: the filters are one predicate shared by list and export; wildcards inside a prefix filter are not modelled.
- SeedCheckpoint.Step: phases one to five are one transaction each and their tables are not modelled; the bot phase commits by day without a clean-up, so exactly-once is not claimed for it.
- SeedCounts.MemberCountsSum: the script computes in floating point; the bounds are for exact arithmetic.
- SeedNames.SeedLogins: the generator of base names is any function; the 39-character limit it applies does not survive the retry loop and is not claimed.
- SeedWindows.GenerateHours: the contents of events are not modelled; an hour's count is, in exact arithmetic.
- Actor risk scores, detection and sync workers, reports, the frontend and the deployment configuration are not modelled.
