/** Login sessions and their periodic role refresh (backend/app/deps.py, get_current_user):
    many requests in flight over one expiring key-value store and one changing database.

    Every database statement and every store call is a step of its own, so commits, logouts and
    the clock may come between any two of them. A database state is named by its version, the
    number of commits before it. What the statements answer on a version is a parameter, so
    every history of contents is covered. The clock counts whole seconds. */
module Sessions {

  type Jti = nat
  type Version = nat

  datatype Option<T> = None | Some(value: T)

  const SETUP_LOGIN := "setup_admin"

  datatype Scope = Scope(orgs: seq<string>, repos: seq<string>, isGlobal: bool)

  /** The JSON value under a session key; a missing `roles_refreshed_at` trail as 0. */
  datatype SessionData = SessionData(login: string, roles: seq<string>, scope: Scope, refreshedAt: int)

  datatype Entry = Entry(data: SessionData, deadline: int)

  datatype User = User(login: string, roles: seq<string>, orgs: seq<string>, repos: seq<string>, isGlobal: bool)

  /** Roles come from two statements, one over direct grants and one over team grants; so does
      the scope. Each statement sees a version of its own. Grants expire against NOW(), which is
      the start of the transaction that the four statements share. */
  datatype Settings = Settings(
    interval: nat,
    ttl: nat,
    resolveRoles: (Version, Version, int, string) -> seq<string>,
    userScope: (Version, Version, int, string, seq<string>) -> Scope)

  /** The session the setup wizard stores: it has no database record. */
  const SETUP_DATA := SessionData(SETUP_LOGIN, ["sys_admin"], Scope([], [], true), 0)

  function UserOf(data: SessionData): User {
    User(data.login, data.roles, data.scope.orgs, data.scope.repos,
         "sys_admin" in data.roles || "super_admin" in data.roles || data.scope.isGlobal)
  }

  // ---------------------------------------------------------------------------
  // One pass through the four statements

  /** One statement: the version it saw, and when. */
  datatype Look = Look(version: Version, at: int)

  /** The statements run so far, in program order: direct roles, team roles, direct scope, team
      scope. The refresh time is taken between the second and the third. */
  datatype Trail = Trail(looks: seq<Look>, stamp: Option<int>)

  const NO_TRAIL := Trail([], None)

  function RolesOf(c: Settings, login: string, looks: seq<Look>): seq<string>
    requires |looks| >= 2
  {
    c.resolveRoles(looks[0].version, looks[1].version, looks[0].at, login)
  }

  /** The session after all four statements. */
  function DataOf(c: Settings, login: string, trail: Trail): SessionData
    requires |trail.looks| >= 4
  {
    var roles := RolesOf(c, login, trail.looks);
    SessionData(login, roles,
                c.userScope(trail.looks[2].version, trail.looks[3].version, trail.looks[0].at, login, roles),
                if trail.stamp.Some? then trail.stamp.value else 0)
  }

  /** The session dictionary as the code has it in hand after these statements: roles and refresh
      time are assigned before the scope is asked for. */
  function InHand(c: Settings, cached: SessionData, trail: Trail): SessionData {
    if trail.stamp.None? || |trail.looks| < 2 then cached
    else if |trail.looks| < 4 then
      cached.(roles := RolesOf(c, cached.login, trail.looks), refreshedAt := trail.stamp.value)
    else DataOf(c, cached.login, trail)
  }

  // ---------------------------------------------------------------------------
  // The machine

  datatype Outcome = Exempt | Cached | Refreshed | RolesFailed | ScopeFailed | StoreFailed

  /** Where a request stands inside get_current_user. `cached` is what it read from the store;
      a request is Writing between TTL and SETEX. */
  datatype Request =
    | Arrived(jti: Jti)
    | Loaded(jti: Jti, cached: SessionData)
    | Refreshing(jti: Jti, cached: SessionData, trail: Trail, checkedAt: int)
    | Writing(jti: Jti, cached: SessionData, trail: Trail, ttl: int, readAt: int, checkedAt: int)
    | Answered(cached: SessionData, user: User, outcome: Outcome, checkedAt: int, answeredAt: int)
    | Rejected

  /** A login between its first statement and storing the session. */
  datatype Login = SigningIn(login: string, looks: seq<Look>) | SettingUp

  /** `commits[v]` is when version v was committed; `issued` holds every session id ever drawn;
      `lag` is the longest any refresh took from its first statement to its refresh time. */
  datatype State = State(
    now: int,
    commits: seq<int>,
    store: map<Jti, Entry>,
    pending: map<Jti, Login>,
    issued: set<Jti>,
    requests: map<nat, Request>,
    lag: nat)

  datatype Event =
    | Tick(seconds: nat)
    | Commit
    | SignIn(jti: Jti, login: string)
    | SetUp(jti: Jti)
    | LoginQuery(jti: Jti)
    | LoginStore(jti: Jti)
    | Logout(jti: Jti)
    | Arrive(id: nat, jti: Jti)
    | Load(id: nat)
    | CheckAge(id: nat)
    | Query(id: nat)
    | Stamp(id: nat)
    | ReadTtl(id: nat)
    | SetEx(id: nat)
    | Fail(id: nat)

  function Latest(s: State): Version
    requires s.commits != []
  {
    |s.commits| - 1
  }

  function LookNow(s: State): Look
    requires s.commits != []
  {
    Look(Latest(s), s.now)
  }

  predicate NeedsRefresh(c: Settings, data: SessionData, now: int) {
    now - data.refreshedAt > c.interval
  }

  function Ttl(s: State, jti: Jti): int {
    if jti in s.store then s.store[jti].deadline - s.now else -2
  }

  function Unexpired(store: map<Jti, Entry>, now: int): map<Jti, Entry> {
    map j | j in store && store[j].deadline > now :: store[j]
  }

  function SetRequest(s: State, id: nat, r: Request): State {
    s.(requests := s.requests[id := r])
  }

  function Answer(s: State, id: nat, cached: SessionData, data: SessionData, outcome: Outcome, checkedAt: int): State {
    SetRequest(s, id, Answered(cached, UserOf(data), outcome, checkedAt, s.now))
  }

  function Max(a: int, b: int): int {
    if a < b then b else a
  }

  /** What a login stores, once its statements have run. */
  function LoginData(c: Settings, l: Login): Option<SessionData> {
    match l
    case SettingUp => Some(SETUP_DATA)
    case SigningIn(login, looks) => if |looks| == 4 then Some(DataOf(c, login, Trail(looks, None))) else None
  }

  /** One step of one party; an event that is not enabled changes nothing. */
  function Apply(c: Settings, s: State, e: Event): (s': State)
    requires s.commits != []
    ensures s.commits <= s'.commits
  {
    match e
    case Tick(d) => s.(now := s.now + d + 1, store := Unexpired(s.store, s.now + d + 1))
    case Commit => s.(commits := s.commits + [s.now])
    case SignIn(j, login) =>
      if j in s.issued then s
      else s.(issued := s.issued + {j}, pending := s.pending[j := SigningIn(login, [])])
    case SetUp(j) =>
      if j in s.issued then s
      else s.(issued := s.issued + {j}, pending := s.pending[j := SettingUp])
    case LoginQuery(j) =>
      if j in s.pending && s.pending[j].SigningIn? && |s.pending[j].looks| < 4 then
        s.(pending := s.pending[j := SigningIn(s.pending[j].login, s.pending[j].looks + [LookNow(s)])])
      else s
    case LoginStore(j) =>
      if j in s.pending && c.ttl > 0 && LoginData(c, s.pending[j]).Some? then
        s.(store := s.store[j := Entry(LoginData(c, s.pending[j]).value, s.now + c.ttl)], pending := s.pending - {j})
      else s
    case Logout(j) => s.(store := s.store - {j})
    case Arrive(id, j) => if id in s.requests then s else SetRequest(s, id, Arrived(j))
    case _ => if e.id in s.requests then RequestStep(c, s, e) else s
  }

  predicate IsRequestStep(e: Event) {
    e.Load? || e.CheckAge? || e.Query? || e.Stamp? || e.ReadTtl? || e.SetEx? || e.Fail?
  }

  /** A step of a request that has arrived. The handler of a failed refresh answers with the
      dictionary in hand. */
  function RequestStep(c: Settings, s: State, e: Event): (s': State)
    requires s.commits != [] && IsRequestStep(e) && e.id in s.requests
    ensures s'.commits == s.commits
  {
    match (e, s.requests[e.id])
    case (Load(id), Arrived(j)) =>
      SetRequest(s, id, if j in s.store then Loaded(j, s.store[j].data) else Rejected)
    case (CheckAge(id), Loaded(j, data)) =>
      if data.login == SETUP_LOGIN then Answer(s, id, data, data, Exempt, s.now)
      else if NeedsRefresh(c, data, s.now) then SetRequest(s, id, Refreshing(j, data, NO_TRAIL, s.now))
      else Answer(s, id, data, data, Cached, s.now)
    case (Query(id), Refreshing(j, data, trail, t)) =>
      if |trail.looks| < 2 || (trail.stamp.Some? && |trail.looks| < 4) then
        SetRequest(s, id, Refreshing(j, data, Trail(trail.looks + [LookNow(s)], trail.stamp), t))
      else s
    case (Stamp(id), Refreshing(j, data, trail, t)) =>
      if |trail.looks| == 2 && trail.stamp.None? then
        SetRequest(s.(lag := Max(s.lag, s.now - trail.looks[0].at)), id,
                   Refreshing(j, data, Trail(trail.looks, Some(s.now)), t))
      else s
    case (ReadTtl(id), Refreshing(j, data, trail, t)) =>
      if |trail.looks| < 4 then s
      else if Ttl(s, j) > 0 then SetRequest(s, id, Writing(j, data, trail, Ttl(s, j), s.now, t))
      else Answer(s, id, data, InHand(c, data, trail), Refreshed, t)
    case (SetEx(id), Writing(j, data, trail, ttl, _, t)) =>
      Answer(s.(store := s.store[j := Entry(InHand(c, data, trail), s.now + ttl)]), id,
             data, InHand(c, data, trail), Refreshed, t)
    case (Fail(id), Refreshing(j, data, trail, t)) => Answer(s, id, data, InHand(c, data, trail), FailurePoint(trail), t)
    case (Fail(id), Writing(j, data, trail, _, _, t)) => Answer(s, id, data, InHand(c, data, trail), FailurePoint(trail), t)
    case _ => s
  }

  function FailurePoint(trail: Trail): Outcome {
    if trail.stamp.None? then RolesFailed else if |trail.looks| < 4 then ScopeFailed else StoreFailed
  }

  function Run(c: Settings, s: State, events: seq<Event>): (s': State)
    requires s.commits != []
    ensures s'.commits != []
    decreases |events|
  {
    if events == [] then s else Apply(c, Run(c, s, events[..|events| - 1]), events[|events| - 1])
  }

  lemma RunSnoc(c: Settings, s: State, events: seq<Event>, e: Event)
    requires s.commits != []
    ensures Run(c, s, events + [e]) == Apply(c, Run(c, s, events), e)
  {
    hide Apply;
    assert (events + [e])[..|events|] == events;
  }

  lemma ApplyRequest(c: Settings, s: State, e: Event)
    requires s.commits != [] && IsRequestStep(e)
    ensures Apply(c, s, e) == if e.id in s.requests then RequestStep(c, s, e) else s
  {
    hide RequestStep;
  }

  // ---------------------------------------------------------------------------
  // The code of one request, run without interruption

  /** The answer is about this login and shows these roles and this scope; it is global for an
      administrator's roles and for a global scope. */
  predicate Shows(user: User, login: string, roles: seq<string>, scope: Scope) {
    && user.login == login && user.roles == roles && user.orgs == scope.orgs && user.repos == scope.repos
    && (user.isGlobal <==> "sys_admin" in roles || "super_admin" in roles || scope.isGlobal)
  }

  /** The call asks the database, and its role statements answer. */
  predicate Refreshes(c: Settings, cached: SessionData, now: int, attempt: Attempt) {
    cached.login != "setup_admin" && now - cached.refreshedAt > c.interval && attempt != RoleQueryFails
  }

  /** How far a refresh gets, when one is due. */
  datatype Attempt = RoleQueryFails | ScopeQueryFails | StoreFails | Completes

  /** The store client. */
  class SessionStore {
    var entries: map<Jti, Entry>

    constructor (entries: map<Jti, Entry>)
      ensures this.entries == entries
    {
      this.entries := entries;
    }

    method Get(jti: Jti) returns (raw: Option<SessionData>)
      ensures raw == if jti in entries then Some(entries[jti].data) else None
    {
      raw := if jti in entries then Some(entries[jti].data) else None;
    }

    method TimeToLive(jti: Jti, now: int) returns (ttl: int)
      ensures ttl == if jti in entries then entries[jti].deadline - now else -2
    {
      ttl := if jti in entries then entries[jti].deadline - now else -2;
    }

    method SetWithExpiry(jti: Jti, ttl: int, data: SessionData, now: int)
      requires ttl > 0
      modifies this
      ensures entries == old(entries)[jti := Entry(data, now + ttl)]
    {
      entries := entries[jti := Entry(data, now + ttl)];
    }

    /** get_current_user from the store lookup on; None is a 401. The ghost state is any state
        of the machine that agrees with the store, the clock and the database: the call does
        what the request's own steps do there. */
    method GetCurrentUser(c: Settings, jti: Jti, now: int, db: Version, attempt: Attempt,
                          ghost s: State, ghost id: nat)
      returns (user: Option<User>)
      requires s.commits != [] && s.store == entries && s.now == now && Latest(s) == db && id !in s.requests
      modifies this
      ensures var s' := Solo(c, s, id, jti, attempt);
              && entries == s'.store
              && id in s'.requests
              && (user == None <==> s'.requests[id] == Rejected)
              && (user != None <==> s'.requests[id].Answered?)
              && (user != None ==> user.value == s'.requests[id].user)
      ensures user == None <==> jti !in old(entries)
      ensures jti !in old(entries) ==> entries == old(entries)
      ensures jti in old(entries) && !Refreshes(c, old(entries)[jti].data, now, attempt) ==>
        var cached := old(entries)[jti].data;
        Shows(user.value, cached.login, cached.roles, cached.scope) && entries == old(entries)
      ensures jti in old(entries) && Refreshes(c, old(entries)[jti].data, now, attempt) ==>
        var old', login := old(entries)[jti], old(entries)[jti].data.login;
        var roles := c.resolveRoles(db, db, now, login);
        var scope := if attempt == ScopeQueryFails then old'.data.scope else c.userScope(db, db, now, login, roles);
        && Shows(user.value, login, roles, scope)
        && entries == (if attempt == Completes && old'.deadline > now
                       then old(entries)[jti := Entry(SessionData(login, roles, scope, now), old'.deadline)]
                       else old(entries))
    {
      hide Apply, Finish, SoloChecked, InHand, StoreAfter;
      SoloCheckedOutcome(c, s, id, jti);
      var raw := Get(jti);
      if raw == None {
        FinishOver(c, SoloChecked(c, s, id, jti), id, attempt);
        return None;
      }
      var session := raw.value;
      var login := session.login;
      if login != SETUP_LOGIN && now - session.refreshedAt > c.interval {
        FinishRefresh(c, SoloChecked(c, s, id, jti), id, attempt);
        session := TryRefresh(c, jti, session, now, db, attempt);
      } else {
        FinishOver(c, SoloChecked(c, s, id, jti), id, attempt);
      }
      user := Some(UserOf(session));
    }

    /** The body of the try block and its handler: the session dictionary as the call leaves it. */
    method TryRefresh(c: Settings, jti: Jti, cached: SessionData, now: int, db: Version, attempt: Attempt)
      returns (session: SessionData)
      modifies this
      ensures session == InHand(c, cached, TrailOf(Look(db, now), attempt))
      ensures entries == StoreAfter(old(entries), jti, session, now, attempt)
      ensures attempt == RoleQueryFails ==> session == cached && entries == old(entries)
      ensures attempt != RoleQueryFails ==>
        var roles := c.resolveRoles(db, db, now, cached.login);
        var scope := if attempt == ScopeQueryFails then cached.scope else c.userScope(db, db, now, cached.login, roles);
        && session == SessionData(cached.login, roles, scope, now)
        && entries == (if attempt == Completes && jti in old(entries) && old(entries)[jti].deadline > now
                       then old(entries)[jti := Entry(session, old(entries)[jti].deadline)]
                       else old(entries))
    {
      session := cached;
      if attempt == RoleQueryFails {
        return;
      }
      var roles := c.resolveRoles(db, db, now, session.login);
      session := session.(roles := roles);
      session := session.(refreshedAt := now);
      if attempt == ScopeQueryFails {
        return;
      }
      session := session.(scope := c.userScope(db, db, now, session.login, roles));
      if attempt == StoreFails {
        return;
      }
      var ttl := TimeToLive(jti, now);
      if ttl > 0 {
        SetWithExpiry(jti, ttl, session, now);
      }
    }
  }

  /** The statements an uninterrupted refresh gets through. */
  function TrailOf(look: Look, attempt: Attempt): Trail {
    match attempt
    case RoleQueryFails => NO_TRAIL
    case ScopeQueryFails => Trail([look, look], Some(look.at))
    case _ => Trail([look, look, look, look], Some(look.at))
  }

  function StoreAfter(store: map<Jti, Entry>, jti: Jti, data: SessionData, now: int, attempt: Attempt): map<Jti, Entry> {
    if attempt == Completes && jti in store && store[jti].deadline > now
    then store[jti := store[jti].(data := data)] else store
  }

  function SoloChecked(c: Settings, s: State, id: nat, jti: Jti): State
    requires s.commits != []
  {
    Apply(c, Apply(c, Apply(c, s, Arrive(id, jti)), Load(id)), CheckAge(id))
  }

  function RolesRead(c: Settings, s: State, id: nat): State
    requires s.commits != []
  {
    Apply(c, Apply(c, Apply(c, s, Query(id)), Query(id)), Stamp(id))
  }

  function ScopeRead(c: Settings, s: State, id: nat): State
    requires s.commits != []
  {
    Apply(c, Apply(c, s, Query(id)), Query(id))
  }

  function Finish(c: Settings, s: State, id: nat, attempt: Attempt): State
    requires s.commits != []
  {
    match attempt
    case RoleQueryFails => Apply(c, s, Fail(id))
    case ScopeQueryFails => Apply(c, RolesRead(c, s, id), Fail(id))
    case StoreFails => Apply(c, ScopeRead(c, RolesRead(c, s, id), id), Fail(id))
    case Completes => Apply(c, Apply(c, ScopeRead(c, RolesRead(c, s, id), id), ReadTtl(id)), SetEx(id))
  }

  /** A request that takes all its steps in a row. */
  function Solo(c: Settings, s: State, id: nat, jti: Jti, attempt: Attempt): State
    requires s.commits != []
  {
    Finish(c, SoloChecked(c, s, id, jti), id, attempt)
  }

  function WithTrail(r: Request, trail: Trail): Request
    requires r.Refreshing?
  {
    Refreshing(r.jti, r.cached, trail, r.checkedAt)
  }

  lemma RolesReadOutcome(c: Settings, s: State, id: nat)
    requires s.commits != [] && id in s.requests && s.requests[id].Refreshing? && s.requests[id].trail == NO_TRAIL
    ensures RolesRead(c, s, id)
         == SetRequest(s, id, WithTrail(s.requests[id], Trail([LookNow(s), LookNow(s)], Some(s.now))))
  {
    hide Apply, InHand, UserOf;
    var r := s.requests[id];
    var s1 := SetRequest(s, id, WithTrail(r, Trail([LookNow(s)], None)));
    var s2 := SetRequest(s, id, WithTrail(r, Trail([LookNow(s), LookNow(s)], None)));
    ApplyRequest(c, s, Query(id));
    assert [] + [LookNow(s)] == [LookNow(s)];
    assert Apply(c, s, Query(id)) == s1;
    ApplyRequest(c, s1, Query(id));
    assert [LookNow(s)] + [LookNow(s)] == [LookNow(s), LookNow(s)];
    assert Apply(c, s1, Query(id)) == s2;
    ApplyRequest(c, s2, Stamp(id));
  }

  lemma ScopeReadOutcome(c: Settings, s: State, id: nat, a: Look, b: Look, t: int)
    requires s.commits != [] && id in s.requests && s.requests[id].Refreshing?
    requires s.requests[id].trail == Trail([a, b], Some(t))
    ensures ScopeRead(c, s, id)
         == SetRequest(s, id, WithTrail(s.requests[id], Trail([a, b, LookNow(s), LookNow(s)], Some(t))))
  {
    hide Apply, InHand, UserOf;
    var r := s.requests[id];
    var s1 := SetRequest(s, id, WithTrail(r, Trail([a, b, LookNow(s)], Some(t))));
    ApplyRequest(c, s, Query(id));
    assert [a, b] + [LookNow(s)] == [a, b, LookNow(s)];
    assert Apply(c, s, Query(id)) == s1;
    ApplyRequest(c, s1, Query(id));
    assert [a, b, LookNow(s)] + [LookNow(s)] == [a, b, LookNow(s), LookNow(s)];
  }

  lemma FinishRefresh(c: Settings, s: State, id: nat, attempt: Attempt)
    requires s.commits != [] && id in s.requests && s.requests[id].Refreshing? && s.requests[id].trail == NO_TRAIL
    ensures var r := s.requests[id];
            var s' := Finish(c, s, id, attempt);
            var after := InHand(c, r.cached, TrailOf(LookNow(s), attempt));
            && id in s'.requests && s'.requests[id].Answered? && s'.requests[id].user == UserOf(after)
            && s'.store == StoreAfter(s.store, r.jti, after, s.now, attempt)
  {
    hide Apply, RolesRead, ScopeRead, InHand, UserOf;
    if attempt == RoleQueryFails {
      ApplyRequest(c, s, Fail(id));
    } else {
      var s1 := RolesRead(c, s, id);
      RolesReadOutcome(c, s, id);
      if attempt == ScopeQueryFails {
        ApplyRequest(c, s1, Fail(id));
      } else {
        ScopeReadOutcome(c, s1, id, LookNow(s), LookNow(s), s.now);
        FinishWrite(c, ScopeRead(c, s1, id), id, attempt);
      }
    }
  }

  lemma FinishWrite(c: Settings, s: State, id: nat, attempt: Attempt)
    requires s.commits != [] && id in s.requests && s.requests[id].Refreshing? && |s.requests[id].trail.looks| == 4
    requires attempt == StoreFails || attempt == Completes
    ensures var r := s.requests[id];
            var s' := if attempt == StoreFails then Apply(c, s, Fail(id)) else Apply(c, Apply(c, s, ReadTtl(id)), SetEx(id));
            var after := InHand(c, r.cached, r.trail);
            && id in s'.requests && s'.requests[id].Answered? && s'.requests[id].user == UserOf(after)
            && s'.store == StoreAfter(s.store, r.jti, after, s.now, attempt)
  {
    hide Apply, InHand, UserOf;
    ApplyRequest(c, s, Fail(id));
    ApplyRequest(c, s, ReadTtl(id));
    ApplyRequest(c, Apply(c, s, ReadTtl(id)), SetEx(id));
  }

  lemma NothingLeft(c: Settings, s: State, e: Event)
    requires s.commits != [] && IsRequestStep(e) && e.id in s.requests
    requires s.requests[e.id].Answered? || s.requests[e.id].Rejected?
    ensures Apply(c, s, e) == s
  {
    hide Apply, UserOf, InHand;
    ApplyRequest(c, s, e);
  }

  lemma FinishOver(c: Settings, s: State, id: nat, attempt: Attempt)
    requires s.commits != [] && id in s.requests && (s.requests[id].Answered? || s.requests[id].Rejected?)
    ensures Finish(c, s, id, attempt) == s
  {
    hide Apply;
    NothingLeft(c, s, Query(id));
    NothingLeft(c, s, Stamp(id));
    NothingLeft(c, s, ReadTtl(id));
    NothingLeft(c, s, SetEx(id));
    NothingLeft(c, s, Fail(id));
  }

  lemma SoloCheckedOutcome(c: Settings, s: State, id: nat, jti: Jti)
    requires s.commits != [] && id !in s.requests
    ensures SoloChecked(c, s, id, jti) == SetRequest(s, id,
              if jti !in s.store then Rejected
              else var data := s.store[jti].data;
                if data.login == SETUP_LOGIN then Answered(data, UserOf(data), Exempt, s.now, s.now)
                else if NeedsRefresh(c, data, s.now) then Refreshing(jti, data, NO_TRAIL, s.now)
                else Answered(data, UserOf(data), Cached, s.now, s.now))
  {
    hide Apply, UserOf, InHand;
    var arrived := SetRequest(s, id, Arrived(jti));
    ApplyArrive(c, s, id, jti);
    ApplyRequest(c, arrived, Load(id));
    var loaded := SetRequest(s, id, if jti in s.store then Loaded(jti, s.store[jti].data) else Rejected);
    assert Apply(c, arrived, Load(id)) == loaded;
    ApplyRequest(c, loaded, CheckAge(id));
  }

  lemma ApplyArrive(c: Settings, s: State, id: nat, jti: Jti)
    requires s.commits != [] && id !in s.requests
    ensures Apply(c, s, Arrive(id, jti)) == SetRequest(s, id, Arrived(jti))
  {
    hide RequestStep;
  }

  // ---------------------------------------------------------------------------
  // What a session and an answer may contain

  /** Version v was what the database held at some moment of second t. */
  ghost predicate HeldAt(commits: seq<int>, v: Version, t: int) {
    v < |commits| && commits[v] <= t && (v + 1 < |commits| ==> t <= commits[v + 1])
  }

  ghost predicate InOrder(commits: seq<int>) {
    forall i, j :: 0 <= i < j < |commits| ==> commits[i] <= commits[j]
  }

  ghost predicate LooksOk(s: State, looks: seq<Look>) {
    && (forall i :: 0 <= i < |looks| ==> HeldAt(s.commits, looks[i].version, looks[i].at) && looks[i].at <= s.now)
    && (forall i, j :: 0 <= i < j < |looks| ==> looks[i].version <= looks[j].version && looks[i].at <= looks[j].at)
  }

  /** The refresh time lies between the role statements and the scope statements. */
  ghost predicate StampOk(s: State, trail: Trail) {
    trail.stamp.Some? ==>
      && |trail.looks| >= 2
      && trail.looks[1].at <= trail.stamp.value <= s.now
      && trail.stamp.value - trail.looks[0].at <= s.lag
      && (forall i :: 2 <= i < |trail.looks| ==> trail.stamp.value <= trail.looks[i].at)
  }

  ghost predicate TrailOk(s: State, trail: Trail) {
    |trail.looks| <= 4 && LooksOk(s, trail.looks) && StampOk(s, trail)
  }

  /** These roles and this scope are what the four statements gave. */
  ghost predicate Gave(c: Settings, looks: seq<Look>, login: string, roles: seq<string>, scope: Scope) {
    && |looks| == 4
    && roles == c.resolveRoles(looks[0].version, looks[1].version, looks[0].at, login)
    && scope == c.userScope(looks[2].version, looks[3].version, looks[0].at, login, roles)
  }

  /** The session is what these four statements gave. */
  ghost predicate FromTrail(c: Settings, s: State, data: SessionData, trail: Trail) {
    && |trail.looks| == 4 && TrailOk(s, trail)
    && Gave(c, trail.looks, data.login, data.roles, data.scope)
    && data.refreshedAt == (if trail.stamp.Some? then trail.stamp.value else 0)
  }

  /** Roles, scope and refresh time of `data` all belong to version v, as of second t. */
  ghost predicate FromSnapshot(c: Settings, s: State, data: SessionData, v: Version, t: int) {
    && HeldAt(s.commits, v, t)
    && data.roles == c.resolveRoles(v, v, t, data.login)
    && data.scope == c.userScope(v, v, t, data.login, data.roles)
    && (data.refreshedAt != 0 ==> t <= data.refreshedAt <= t + s.lag && HeldAt(s.commits, v, data.refreshedAt))
  }

  /** A commit landed after the first of these statements and no later than the last. */
  ghost predicate CommitDuring(s: State, looks: seq<Look>)
    requires |looks| == 4
  {
    exists k | looks[0].version < k <= looks[3].version && k < |s.commits| ::
      looks[0].at <= s.commits[k] <= looks[3].at
  }

  ghost predicate DataOk(c: Settings, s: State, data: SessionData) {
    data == SETUP_DATA || exists trail :: FromTrail(c, s, data, trail)
  }

  /** The user's roles are what the two role statements saw, inside the refresh window. */
  ghost predicate RolesHeld(c: Settings, s: State, r: Request, looks: seq<Look>)
    requires r.Answered?
  {
    && |looks| >= 2 && LooksOk(s, looks)
    && r.checkedAt - c.interval - s.lag <= looks[0].at
    && looks[|looks| - 1].at <= r.answeredAt <= s.now
    && r.user.roles == RolesOf(c, r.user.login, looks)
  }

  /** The whole answer is what these four statements saw. */
  ghost predicate Explained(c: Settings, user: User, looks: seq<Look>) {
    |looks| == 4 && ShowsReads(c, user, looks[0].version, looks[1].version, looks[2].version, looks[3].version, looks[0].at)
  }

  /** The answer is what role statements on versions v and w and scope statements on versions x
      and y give as of second t. */
  ghost predicate ShowsReads(c: Settings, user: User, v: Version, w: Version, x: Version, y: Version, t: int) {
    var roles := c.resolveRoles(v, w, t, user.login);
    Shows(user, user.login, roles, c.userScope(x, y, t, user.login, roles))
  }

  ghost predicate AnswerOk(c: Settings, s: State, r: Request)
    requires r.Answered?
  {
    && r.user.login == r.cached.login
    && (r.outcome == Exempt <==> r.user.login == SETUP_LOGIN)
    && (r.outcome == Exempt || r.outcome == Cached || r.outcome == RolesFailed ==> r.user == UserOf(r.cached))
    && (r.outcome == ScopeFailed ==>
          r.user == UserOf(r.cached.(roles := r.user.roles)) && exists looks :: OwnRoles(c, s, r, looks))
    && (r.outcome == Cached ==> exists looks :: RolesHeld(c, s, r, looks) && Explained(c, r.user, looks))
    && (r.outcome == Refreshed || r.outcome == StoreFailed ==>
          exists looks :: OwnRoles(c, s, r, looks) && Explained(c, r.user, looks))
  }

  /** The same, from statements that this request ran itself after its age check. */
  ghost predicate OwnRoles(c: Settings, s: State, r: Request, looks: seq<Look>)
    requires r.Answered?
  {
    RolesHeld(c, s, r, looks) && r.checkedAt <= looks[0].at
  }

  ghost predicate RefreshOk(c: Settings, s: State, cached: SessionData, trail: Trail, checkedAt: int) {
    && DataOk(c, s, cached) && cached.login != SETUP_LOGIN
    && TrailOk(s, trail) && (trail.stamp.None? ==> |trail.looks| <= 2)
    && checkedAt <= s.now && (trail.looks != [] ==> checkedAt <= trail.looks[0].at)
  }

  ghost predicate RequestOk(c: Settings, s: State, r: Request) {
    match r
    case Arrived(_) => true
    case Loaded(_, data) => DataOk(c, s, data)
    case Refreshing(_, cached, trail, t) => RefreshOk(c, s, cached, trail, t)
    case Writing(_, cached, trail, ttl, readAt, t) =>
      RefreshOk(c, s, cached, trail, t) && |trail.looks| == 4 && ttl > 0 && readAt <= s.now
    case Answered(cached, _, _, _, _) => DataOk(c, s, cached) && AnswerOk(c, s, r)
    case Rejected => true
  }

  ghost predicate LoginOk(s: State, l: Login) {
    l.SigningIn? ==> |l.looks| <= 4 && LooksOk(s, l.looks)
  }

  ghost predicate Inv(c: Settings, s: State) {
    && s.commits != []
    && s.now > c.interval
    && (forall i :: 0 <= i < |s.commits| ==> s.commits[i] <= s.now)
    && InOrder(s.commits)
    && (forall j :: j in s.store ==> DataOk(c, s, s.store[j].data) && s.store[j].deadline > s.now)
    && (forall j :: j in s.pending ==> LoginOk(s, s.pending[j]))
    && s.store.Keys + s.pending.Keys <= s.issued
    && s.store.Keys !! s.pending.Keys
    && (forall id :: id in s.requests ==> RequestOk(c, s, s.requests[id]))
    && (forall id :: id in s.requests && s.requests[id].Writing? ==>
          s.requests[id].jti in s.issued && s.requests[id].jti !in s.pending)
  }

  /** The clock is past the first interval of its epoch when the service starts. */
  ghost predicate Init(c: Settings, s: State) {
    && s.now > c.interval
    && s.commits == [s.now]
    && s.store == map[] && s.pending == map[] && s.issued == {} && s.requests == map[]
  }

  // ---------------------------------------------------------------------------
  // Facts about the past survive later steps

  /** `s'` is `s` with time passed, commits added or a longer lag seen. */
  ghost predicate Later(s: State, s': State) {
    && s.now <= s'.now
    && s.commits <= s'.commits
    && (forall i :: |s.commits| <= i < |s'.commits| ==> s.now <= s'.commits[i])
    && s.lag <= s'.lag
  }

  lemma LooksOkLater(s: State, s': State, looks: seq<Look>)
    requires Later(s, s') && LooksOk(s, looks)
    ensures LooksOk(s', looks)
  {
  }

  lemma TrailOkLater(s: State, s': State, trail: Trail)
    requires Later(s, s') && TrailOk(s, trail)
    ensures TrailOk(s', trail)
  {
    hide LooksOk;
    LooksOkLater(s, s', trail.looks);
  }

  lemma DataOkLater(c: Settings, s: State, s': State, data: SessionData)
    requires Later(s, s') && DataOk(c, s, data)
    ensures DataOk(c, s', data)
  {
    hide TrailOk;
    if data != SETUP_DATA {
      var trail :| FromTrail(c, s, data, trail);
      TrailOkLater(s, s', trail);
      assert FromTrail(c, s', data, trail);
    }
  }

  lemma RolesHeldLater(c: Settings, s: State, s': State, r: Request, looks: seq<Look>)
    requires Later(s, s') && r.Answered? && RolesHeld(c, s, r, looks)
    ensures RolesHeld(c, s', r, looks)
  {
    hide LooksOk;
    LooksOkLater(s, s', looks);
  }

  lemma AnswerOkLater(c: Settings, s: State, s': State, r: Request)
    requires Later(s, s') && r.Answered? && AnswerOk(c, s, r)
    ensures AnswerOk(c, s', r)
  {
    hide Explained, UserOf, RolesHeld;
    if r.outcome == ScopeFailed {
      var looks :| OwnRoles(c, s, r, looks);
      RolesHeldLater(c, s, s', r, looks);
      assert OwnRoles(c, s', r, looks);
    }
    if r.outcome == Cached {
      var looks :| RolesHeld(c, s, r, looks) && Explained(c, r.user, looks);
      RolesHeldLater(c, s, s', r, looks);
    }
    if r.outcome == Refreshed || r.outcome == StoreFailed {
      var looks :| OwnRoles(c, s, r, looks) && Explained(c, r.user, looks);
      RolesHeldLater(c, s, s', r, looks);
      assert OwnRoles(c, s', r, looks);
    }
  }

  lemma RequestOkLater(c: Settings, s: State, s': State, r: Request)
    requires Later(s, s') && RequestOk(c, s, r)
    ensures RequestOk(c, s', r)
  {
    hide DataOk, TrailOk, AnswerOk;
    match r
    case Loaded(_, data) => DataOkLater(c, s, s', data);
    case Refreshing(_, cached, trail, _) =>
      DataOkLater(c, s, s', cached);
      TrailOkLater(s, s', trail);
    case Writing(_, cached, trail, _, _, _) =>
      DataOkLater(c, s, s', cached);
      TrailOkLater(s, s', trail);
    case Answered(cached, _, _, _, _) =>
      DataOkLater(c, s, s', cached);
      AnswerOkLater(c, s, s', r);
    case _ =>
  }

  // ---------------------------------------------------------------------------
  // Every step keeps the invariant

  /** Steps that touch neither the clock nor the database. */
  lemma SameMoment(c: Settings, s: State, s': State)
    requires Inv(c, s)
    requires s'.now == s.now && s'.commits == s.commits && s.lag <= s'.lag
    requires forall j :: j in s'.store ==>
      DataOk(c, s', s'.store[j].data) && s'.store[j].deadline > s.now
    requires forall j :: j in s'.pending ==> LoginOk(s', s'.pending[j])
    requires s'.store.Keys + s'.pending.Keys <= s'.issued
    requires s'.store.Keys !! s'.pending.Keys
    requires forall id :: id in s'.requests ==> RequestOk(c, s', s'.requests[id])
    requires forall id :: id in s'.requests && s'.requests[id].Writing? ==>
      s'.requests[id].jti in s'.issued && s'.requests[id].jti !in s'.pending
    ensures Inv(c, s')
  {
    hide DataOk, RequestOk, LoginOk;
  }

  lemma Unchanged(c: Settings, s: State, s': State)
    requires Inv(c, s) && Later(s, s')
    ensures forall j :: j in s.store ==> DataOk(c, s', s.store[j].data)
    ensures forall j :: j in s.pending ==> LoginOk(s', s.pending[j])
    ensures forall id :: id in s.requests ==> RequestOk(c, s', s.requests[id])
  {
    hide DataOk, RequestOk, LooksOk;
    forall j | j in s.store ensures DataOk(c, s', s.store[j].data) {
      DataOkLater(c, s, s', s.store[j].data);
    }
    forall j | j in s.pending ensures LoginOk(s', s.pending[j]) {
      if s.pending[j].SigningIn? {
        LooksOkLater(s, s', s.pending[j].looks);
      }
    }
    forall id | id in s.requests ensures RequestOk(c, s', s.requests[id]) {
      RequestOkLater(c, s, s', s.requests[id]);
    }
  }

  lemma EnvironmentKeepsInv(c: Settings, s: State, e: Event)
    requires Inv(c, s)
    requires e.Tick? || e.Commit?
    ensures Inv(c, Apply(c, s, e))
  {
    hide DataOk, RequestOk, LoginOk, RequestStep;
    Unchanged(c, s, Apply(c, s, e));
  }

  lemma NoLooksOk(s: State)
    ensures LooksOk(s, [])
  {
  }

  lemma OneMoreLook(c: Settings, s: State, looks: seq<Look>)
    requires Inv(c, s) && LooksOk(s, looks)
    ensures LooksOk(s, looks + [LookNow(s)])
  {
    hide DataOk, RequestOk;
  }

  lemma LoginDataOk(c: Settings, s: State, l: Login)
    requires LoginOk(s, l) && LoginData(c, l).Some?
    ensures DataOk(c, s, LoginData(c, l).value)
  {
    hide LooksOk;
    if l.SigningIn? {
      assert FromTrail(c, s, LoginData(c, l).value, Trail(l.looks, None));
    }
  }

  lemma SigningInKeepsInv(c: Settings, s: State, e: Event)
    requires Inv(c, s)
    requires e.SignIn? || e.SetUp? || e.LoginQuery?
    ensures Inv(c, Apply(c, s, e))
  {
    hide RequestStep, RequestOk, DataOk, LoginData, LooksOk, InOrder;
    var s' := Apply(c, s, e);
    Unchanged(c, s, s');
    if e.SignIn? {
      NoLooksOk(s');
    } else if e.LoginQuery? && e.jti in s.pending && s.pending[e.jti].SigningIn? {
      OneMoreLook(c, s, s.pending[e.jti].looks);
      LooksOkLater(s, s', s.pending[e.jti].looks + [LookNow(s)]);
    }
    SameMoment(c, s, s');
  }

  lemma StoringKeepsInv(c: Settings, s: State, e: Event)
    requires Inv(c, s)
    requires e.LoginStore? || e.Logout?
    ensures Inv(c, Apply(c, s, e))
  {
    hide RequestStep, RequestOk, DataOk, LoginOk, LoginData, InOrder;
    var s' := Apply(c, s, e);
    Unchanged(c, s, s');
    if e.LoginStore? && e.jti in s.pending && LoginData(c, s.pending[e.jti]).Some? {
      LoginDataOk(c, s, s.pending[e.jti]);
      DataOkLater(c, s, s', LoginData(c, s.pending[e.jti]).value);
    }
    SameMoment(c, s, s');
  }

  lemma CheckedAnswerOk(c: Settings, s: State, data: SessionData)
    requires Inv(c, s) && DataOk(c, s, data)
    requires data.login == SETUP_LOGIN || !NeedsRefresh(c, data, s.now)
    ensures AnswerOk(c, s, Answered(data, UserOf(data), if data.login == SETUP_LOGIN then Exempt else Cached, s.now, s.now))
  {
    hide LooksOk, RequestOk;
    if data.login != SETUP_LOGIN {
      var r := Answered(data, UserOf(data), Cached, s.now, s.now);
      var trail :| FromTrail(c, s, data, trail);
      LooksSorted(s, trail.looks);
      assert RolesHeld(c, s, r, trail.looks) && Explained(c, r.user, trail.looks);
    }
  }

  lemma LooksSorted(s: State, looks: seq<Look>)
    requires LooksOk(s, looks)
    ensures forall i, j :: 0 <= i <= j < |looks| ==> looks[i].at <= looks[j].at <= s.now
  {
  }

  /** The dictionary in hand answers the request whether the refresh fails or ends. */
  lemma InHandAnswerOk(c: Settings, s: State, cached: SessionData, trail: Trail, t: int, outcome: Outcome)
    requires RefreshOk(c, s, cached, trail, t)
    requires outcome == FailurePoint(trail) || (|trail.looks| == 4 && outcome == Refreshed)
    ensures AnswerOk(c, s, Answered(cached, UserOf(InHand(c, cached, trail)), outcome, t, s.now))
  {
    hide LooksOk;
    var r := Answered(cached, UserOf(InHand(c, cached, trail)), outcome, t, s.now);
    LooksSorted(s, trail.looks);
    if outcome != RolesFailed {
      assert OwnRoles(c, s, r, trail.looks);
      assert outcome != ScopeFailed ==> Explained(c, r.user, trail.looks);
    }
  }

  lemma QueryOk(c: Settings, s: State, cached: SessionData, trail: Trail, t: int)
    requires Inv(c, s) && RefreshOk(c, s, cached, trail, t)
    requires |trail.looks| < 2 || (trail.stamp.Some? && |trail.looks| < 4)
    ensures RefreshOk(c, s, cached, Trail(trail.looks + [LookNow(s)], trail.stamp), t)
  {
    hide LooksOk, DataOk, RequestOk;
    OneMoreLook(c, s, trail.looks);
  }

  lemma StampKeepsInv(c: Settings, s: State, id: nat)
    requires Inv(c, s) && id in s.requests && s.requests[id].Refreshing?
    ensures Inv(c, RequestStep(c, s, Stamp(id)))
  {
    hide LooksOk, DataOk, LoginOk, RequestOk, InHand, UserOf;
    var s', r := RequestStep(c, s, Stamp(id)), s.requests[id];
    assert RequestOk(c, s, r);
    Unchanged(c, s, s');
    if |r.trail.looks| == 2 && r.trail.stamp.None? {
      StampedOk(c, s, s', r);
    }
    SameMoment(c, s, s');
  }

  lemma StampedOk(c: Settings, s: State, s': State, r: Request)
    requires r.Refreshing? && RequestOk(c, s, r) && |r.trail.looks| == 2 && Later(s, s')
    requires s'.now == s.now && s'.lag == Max(s.lag, s.now - r.trail.looks[0].at)
    ensures RequestOk(c, s', WithTrail(r, Trail(r.trail.looks, Some(s.now))))
  {
    hide LooksOk, DataOk;
    DataOkLater(c, s, s', r.cached);
    LooksOkLater(s, s', r.trail.looks);
    LooksSorted(s, r.trail.looks);
  }

  lemma SetRequestKeepsInv(c: Settings, s: State, id: nat, r: Request)
    requires Inv(c, s) && RequestOk(c, s, r)
    requires r.Writing? ==> r.jti in s.issued && r.jti !in s.pending
    ensures Inv(c, SetRequest(s, id, r))
  {
    hide RequestOk, DataOk, LoginOk;
    Unchanged(c, s, SetRequest(s, id, r));
    RequestOkLater(c, s, SetRequest(s, id, r), r);
    SameMoment(c, s, SetRequest(s, id, r));
  }

  lemma InHandDataOk(c: Settings, s: State, cached: SessionData, trail: Trail, t: int)
    requires RefreshOk(c, s, cached, trail, t) && |trail.looks| == 4
    ensures DataOk(c, s, InHand(c, cached, trail))
  {
    hide LooksOk;
    assert FromTrail(c, s, InHand(c, cached, trail), trail);
  }

  lemma SetExKeepsInv(c: Settings, s: State, id: nat)
    requires Inv(c, s) && id in s.requests && s.requests[id].Writing?
    ensures Inv(c, RequestStep(c, s, SetEx(id)))
  {
    hide DataOk, LoginOk, RequestOk, InHand, UserOf, AnswerOk, RefreshOk;
    var s', r := RequestStep(c, s, SetEx(id)), s.requests[id];
    WritingFacts(c, s, r);
    Unchanged(c, s, s');
    InHandDataOk(c, s, r.cached, r.trail, r.checkedAt);
    DataOkLater(c, s, s', InHand(c, r.cached, r.trail));
    InHandAnswerOk(c, s, r.cached, r.trail, r.checkedAt, Refreshed);
    AnswerOkLater(c, s, s', s'.requests[id]);
    AnsweredOk(c, s, s', r.cached, s'.requests[id]);
    SameMoment(c, s, s');
  }

  lemma WritingFacts(c: Settings, s: State, r: Request)
    requires r.Writing? && RequestOk(c, s, r)
    ensures RefreshOk(c, s, r.cached, r.trail, r.checkedAt) && |r.trail.looks| == 4 && r.ttl > 0
    ensures DataOk(c, s, r.cached)
  {
  }

  lemma AnsweredOk(c: Settings, s: State, s': State, cached: SessionData, r: Request)
    requires Later(s, s') && DataOk(c, s, cached) && r.Answered? && r.cached == cached && AnswerOk(c, s', r)
    ensures RequestOk(c, s', r)
  {
    hide DataOk, AnswerOk;
    DataOkLater(c, s, s', cached);
  }

  lemma RequestKeepsInv(c: Settings, s: State, e: Event)
    requires Inv(c, s)
    requires IsRequestStep(e)
    requires e.id in s.requests
    ensures Inv(c, RequestStep(c, s, e))
  {
    hide LooksOk, InHand, UserOf, AnswerOk, LoginOk, TrailOk;
    var s', r := RequestStep(c, s, e), s.requests[e.id];
    assert RequestOk(c, s, r);
    if s' == s {
    } else if e.SetEx? {
      SetExKeepsInv(c, s, e.id);
    } else if e.Stamp? {
      StampKeepsInv(c, s, e.id);
    } else {
      match e {
        case CheckAge(_) =>
          NoLooksOk(s);
          if s'.requests[e.id].Answered? {
            CheckedAnswerOk(c, s, r.cached);
          } else {
            NoTrailOk(s);
          }
        case Query(_) => QueryOk(c, s, r.cached, r.trail, r.checkedAt);
        case ReadTtl(_) =>
          AtMostFour(s, r.trail);
          InHandAnswerOk(c, s, r.cached, r.trail, r.checkedAt, Refreshed);
        case Fail(_) => InHandAnswerOk(c, s, r.cached, r.trail, r.checkedAt, FailurePoint(r.trail));
        case _ =>
      }
      SetRequestKeepsInv(c, s, e.id, s'.requests[e.id]);
    }
  }

  lemma AtMostFour(s: State, trail: Trail)
    requires TrailOk(s, trail)
    ensures |trail.looks| <= 4
  {
  }

  lemma NoTrailOk(s: State)
    ensures TrailOk(s, NO_TRAIL)
  {
  }

  lemma StepKeepsInv(c: Settings, s: State, e: Event)
    requires Inv(c, s)
    ensures Inv(c, Apply(c, s, e))
  {
    hide DataOk, LoginOk, RequestOk, RequestStep;
    if e.Tick? || e.Commit? {
      EnvironmentKeepsInv(c, s, e);
    } else if e.Arrive? {
      ArriveKeepsInv(c, s, e);
    } else if IsRequestStep(e) {
      ApplyRequest(c, s, e);
      if e.id in s.requests {
        RequestKeepsInv(c, s, e);
      }
    } else if e.LoginStore? || e.Logout? {
      StoringKeepsInv(c, s, e);
    } else {
      SigningInKeepsInv(c, s, e);
    }
  }

  lemma ArriveKeepsInv(c: Settings, s: State, e: Event)
    requires Inv(c, s) && e.Arrive?
    ensures Inv(c, Apply(c, s, e))
  {
    hide DataOk, LoginOk, RequestStep;
    if e.id !in s.requests {
      SetRequestKeepsInv(c, s, e.id, Arrived(e.jti));
    }
  }

  lemma {:induction false} RunKeepsInv(c: Settings, s: State, events: seq<Event>)
    requires Inv(c, s)
    ensures Inv(c, Run(c, s, events))
    decreases |events|
  {
    hide DataOk, LoginOk, RequestOk, Apply;
    if events != [] {
      RunKeepsInv(c, s, events[..|events| - 1]);
      StepKeepsInv(c, Run(c, s, events[..|events| - 1]), events[|events| - 1]);
    }
  }

  lemma InitInv(c: Settings, s: State)
    requires Init(c, s)
    ensures Inv(c, s)
  {
  }
}
