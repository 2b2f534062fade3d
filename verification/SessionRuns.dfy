/** Runs of the session machine that reach its bounds and break what its code says of itself. */
module SessionRuns {
  import opened Sessions
  import opened SessionAnswers
  import opened SessionKeys

  // ---------------------------------------------------------------------------
  // Runs that reach these bounds

  lemma {:induction false} RunAppend(c: Settings, s: State, first: seq<Event>, rest: seq<Event>)
    requires s.commits != []
    ensures Run(c, s, first + rest) == Run(c, Run(c, s, first), rest)
    decreases |rest|
  {
    hide Apply;
    if rest == [] {
      assert first + rest == first;
    } else {
      var m := |rest| - 1;
      RunAppend(c, s, first, rest[..m]);
      assert (first + rest)[..|first| + m] == first + rest[..m];
    }
  }

  /** One more step of a run. */
  lemma Then(c: Settings, s: State, events: seq<Event>, e: Event, after: State) returns (longer: seq<Event>)
    requires s.commits != [] && Apply(c, Run(c, s, events), e) == after
    ensures longer == events + [e] && Run(c, s, longer) == after
  {
    hide Apply;
    RunSnoc(c, s, events, e);
    longer := events + [e];
  }

  lemma QueriesOnce(c: Settings, s: State, id: nat, looks: seq<Look>)
    requires s.commits != [] && id in s.requests && s.requests[id].Refreshing?
    requires s.requests[id].trail == Trail(looks, None) && |looks| < 2
    ensures Apply(c, s, Query(id)) == SetRequest(s, id, WithTrail(s.requests[id], Trail(looks + [LookNow(s)], None)))
  {
    hide Apply, InHand, UserOf;
    ApplyRequest(c, s, Query(id));
  }

  lemma Stamps(c: Settings, s: State, id: nat)
    requires s.commits != [] && id in s.requests && s.requests[id].Refreshing?
    requires |s.requests[id].trail.looks| == 2 && s.requests[id].trail.stamp.None?
    ensures var looks := s.requests[id].trail.looks;
            Apply(c, s, Stamp(id)) == SetRequest(s.(lag := Max(s.lag, s.now - looks[0].at)), id,
                                                 WithTrail(s.requests[id], Trail(looks, Some(s.now))))
  {
    hide Apply, InHand, UserOf;
    ApplyRequest(c, s, Stamp(id));
  }

  /** A pass through the statements with a commit and d + 1 seconds between the role statements
      and the refresh time. */
  lemma SlowReads(c: Settings, s: State, id: nat, d: nat) returns (events: seq<Event>)
    requires s.commits != [] && id in s.requests && s.requests[id].Refreshing? && s.requests[id].trail == NO_TRAIL
    ensures var a, b, t := LookNow(s), Look(|s.commits|, s.now + d + 1), s.now + d + 1;
            Run(c, s, events) == State(
              t, s.commits + [s.now], Unexpired(s.store, t), s.pending, s.issued,
              s.requests[id := WithTrail(s.requests[id], Trail([a, a, b, b], Some(t)))], Max(s.lag, d + 1))
  {
    hide Apply, Run, InHand, UserOf, ScopeRead;
    var r, a, t := s.requests[id], LookNow(s), s.now + d + 1;
    events := SlowRoles(c, s, id, d);
    var s5 := Run(c, s, events);
    ScopeReadOutcome(c, s5, id, a, a, t);
    ScopeReadTwice(c, s5, id);
    events := Then(c, s, events, Query(id), Apply(c, s5, Query(id)));
    events := Then(c, s, events, Query(id), ScopeRead(c, s5, id));
  }

  lemma ScopeReadTwice(c: Settings, s: State, id: nat)
    requires s.commits != []
    ensures ScopeRead(c, s, id) == Apply(c, Apply(c, s, Query(id)), Query(id))
  {
    hide Apply;
  }

  lemma SlowRoles(c: Settings, s: State, id: nat, d: nat) returns (events: seq<Event>)
    requires s.commits != [] && id in s.requests && s.requests[id].Refreshing? && s.requests[id].trail == NO_TRAIL
    ensures var a, t := LookNow(s), s.now + d + 1;
            Run(c, s, events) == State(
              t, s.commits + [s.now], Unexpired(s.store, t), s.pending, s.issued,
              s.requests[id := WithTrail(s.requests[id], Trail([a, a], Some(t)))], Max(s.lag, d + 1))
  {
    hide Apply, Run, Unexpired;
    var r, a, t := s.requests[id], LookNow(s), s.now + d + 1;
    var s1 := SetRequest(s, id, WithTrail(r, Trail([a], None)));
    var s2 := SetRequest(s, id, WithTrail(r, Trail([a, a], None)));
    var s3 := s2.(commits := s.commits + [s.now]);
    var s4 := s3.(now := t, store := Unexpired(s.store, t));
    RunEmpty(c, s);
    QueriesOnce(c, s, id, []);
    assert [] + [a] == [a] && [a] + [a] == [a, a];
    events := Then(c, s, [], Query(id), s1);
    QueriesOnce(c, s1, id, [a]);
    events := Then(c, s, events, Query(id), s2);
    ApplyCommit(c, s2);
    events := Then(c, s, events, Commit, s3);
    ApplyTick(c, s3, d);
    events := Then(c, s, events, Tick(d), s4);
    Stamps(c, s4, id);
    events := Then(c, s, events, Stamp(id), Apply(c, s4, Stamp(id)));
  }

  lemma ApplyCommit(c: Settings, s: State)
    requires s.commits != []
    ensures Apply(c, s, Commit) == s.(commits := s.commits + [s.now])
  {
  }

  lemma ApplyTick(c: Settings, s: State, d: nat)
    requires s.commits != []
    ensures Apply(c, s, Tick(d)) == s.(now := s.now + d + 1, store := Unexpired(s.store, s.now + d + 1))
  {
  }

  lemma ApplyLogout(c: Settings, s: State, jti: Jti)
    requires s.commits != []
    ensures Apply(c, s, Logout(jti)) == s.(store := s.store - {jti})
  {
  }

  /** A completed refresh can store roles of one version with the scope of the next: it does if a
      commit lands between its role and its scope statements. Its refresh time is then later than
      the roles by however long the pass took. */
  lemma {:induction false} RefreshCanMixVersions(c: Settings, s: State, id: nat, d: nat) returns (events: seq<Event>)
    requires s.commits != [] && id in s.requests && s.requests[id].Refreshing? && s.requests[id].trail == NO_TRAIL
    requires s.requests[id].jti in s.store && s.store[s.requests[id].jti].deadline > s.now + d + 1
    ensures var s', r, v := Run(c, s, events), s.requests[id], Latest(s);
            var roles := c.resolveRoles(v, v, s.now, r.cached.login);
            && s'.now == s.now + d + 1 && s'.commits == s.commits + [s.now] && s'.lag == Max(s.lag, d + 1)
            && s'.requests.Keys == s.requests.Keys && r.jti in s'.store
            && s'.store[r.jti] == Entry(
                 SessionData(r.cached.login, roles, c.userScope(v + 1, v + 1, s.now, r.cached.login, roles), s.now + d + 1),
                 s.store[r.jti].deadline)
  {
    hide Apply, Run, UserOf;
    events := SlowReads(c, s, id, d);
    var s1 := Run(c, s, events);
    ApplyRequest(c, s1, ReadTtl(id));
    var s2 := Apply(c, s1, ReadTtl(id));
    events := Then(c, s, events, ReadTtl(id), s2);
    ApplyRequest(c, s2, SetEx(id));
    events := Then(c, s, events, SetEx(id), Apply(c, s2, SetEx(id)));
  }

  /** The bound of AnswersAreTimely is reached: for any d there are runs whose lag grows to d + 1
      and which answer from the cache with roles replaced one interval and d + 1 seconds before. */
  lemma {:induction false} TimelinessIsTight(c: Settings, s: State, id: nat, d: nat, next: nat) returns (events: seq<Event>)
    requires Inv(c, s) && InTry(s, id) && s.requests[id].Refreshing? && s.requests[id].trail == NO_TRAIL
    requires s.requests[id].jti in s.store && next !in s.requests
    requires s.store[s.requests[id].jti].deadline > s.now + d + 1 + c.interval
    ensures var s', login := Run(c, s, events), s.requests[id].cached.login;
            && s'.lag == Max(s.lag, d + 1) && |s'.commits| == Latest(s) + 2 && s'.commits[Latest(s) + 1] == s.now
            && next in s'.requests && s'.requests[next].Answered?
            && s'.requests[next].checkedAt == s.now + d + 1 + c.interval && s'.requests[next].outcome == Cached
            && s'.requests[next].user.roles == c.resolveRoles(Latest(s), Latest(s), s.now, login)
  {
    hide Apply, Run, DataOk, LoginOk, TrailOk, AnswerOk;
    var r := s.requests[id];
    assert RequestOk(c, s, r);
    events := RefreshCanMixVersions(c, s, id, d);
    var s1 := Run(c, s, events);
    if c.interval > 0 {
      ApplyTick(c, s1, c.interval - 1);
      events := Then(c, s, events, Tick(c.interval - 1), Apply(c, s1, Tick(c.interval - 1)));
    }
    var s2 := Run(c, s, events);
    SoloCheckedOutcome(c, s2, next, r.jti);
    events := Then(c, s, events, Arrive(next, r.jti), Apply(c, s2, Arrive(next, r.jti)));
    events := Then(c, s, events, Load(next), Apply(c, Run(c, s, events), Load(next)));
    events := Then(c, s, events, CheckAge(next), Apply(c, Run(c, s, events), CheckAge(next)));
  }

  /** A logout between a refresh's two store calls is undone, and the session outlives its
      deadline by the time between the calls. */
  lemma {:induction false} LogoutCanBeUndone(c: Settings, s: State, id: nat, d: nat)
    requires s.commits != [] && id in s.requests && s.requests[id].Refreshing? && |s.requests[id].trail.looks| == 4
    requires s.requests[id].jti in s.store && s.store[s.requests[id].jti].deadline > s.now
    ensures var jti := s.requests[id].jti;
            var out := Run(c, s, [ReadTtl(id)] + [Logout(jti)]);
            var s' := Run(c, s, [ReadTtl(id)] + [Logout(jti)] + [Tick(d)] + [SetEx(id)]);
            && jti !in out.store
            && jti in s'.store && s'.store[jti].deadline == s.store[jti].deadline + d + 1
  {
    hide Apply, Run, UserOf, InHand;
    var jti := s.requests[id].jti;
    RunEmpty(c, s);
    ApplyRequest(c, s, ReadTtl(id));
    var s1 := Apply(c, s, ReadTtl(id));
    var events := Then(c, s, [], ReadTtl(id), s1);
    assert [] + [ReadTtl(id)] == [ReadTtl(id)];
    ApplyLogout(c, s1, jti);
    var s2 := Apply(c, s1, Logout(jti));
    events := Then(c, s, events, Logout(jti), s2);
    ApplyTick(c, s2, d);
    var s3 := Apply(c, s2, Tick(d));
    events := Then(c, s, events, Tick(d), s3);
    SetExStores(c, s3, id, jti);
    events := Then(c, s, events, SetEx(id), Apply(c, s3, SetEx(id)));
  }

  lemma OneMoreLoginQuery(c: Settings, s: State, jti: Jti, login: string, looks: seq<Look>)
    requires s.commits != [] && jti in s.pending && s.pending[jti] == SigningIn(login, looks) && |looks| < 4
    ensures Apply(c, s, LoginQuery(jti)) == s.(pending := s.pending[jti := SigningIn(login, looks + [LookNow(s)])])
  {
  }

  lemma LoginStored(c: Settings, s: State, jti: Jti)
    requires s.commits != [] && jti in s.pending && LoginData(c, s.pending[jti]).Some? && c.ttl > 0
    ensures var s' := Apply(c, s, LoginStore(jti));
            jti in s'.store && s'.store[jti] == Entry(LoginData(c, s.pending[jti]).value, s.now + c.ttl)
  {
  }

  /** A login that runs its four statements and stores its session leaves what they gave under a
      new id for one TTL. */
  lemma {:induction false} SignInStores(c: Settings, s: State, jti: Jti, login: string) returns (events: seq<Event>)
    requires s.commits != [] && jti !in s.issued && c.ttl > 0
    ensures var s', v := Run(c, s, events), Latest(s);
            var roles := c.resolveRoles(v, v, s.now, login);
            jti in s'.store
            && s'.store[jti] == Entry(SessionData(login, roles, c.userScope(v, v, s.now, login, roles), 0), s.now + c.ttl)
  {
    hide Apply, Run;
    var a := LookNow(s);
    RunEmpty(c, s);
    ApplySignIn(c, s, jti, login);
    var s0 := Apply(c, s, SignIn(jti, login));
    events := Then(c, s, [], SignIn(jti, login), s0);
    OneMoreLoginQuery(c, s0, jti, login, []);
    var s1 := Apply(c, s0, LoginQuery(jti));
    events := Then(c, s, events, LoginQuery(jti), s1);
    OneMoreLoginQuery(c, s1, jti, login, [] + [a]);
    var s2 := Apply(c, s1, LoginQuery(jti));
    events := Then(c, s, events, LoginQuery(jti), s2);
    OneMoreLoginQuery(c, s2, jti, login, [] + [a] + [a]);
    var s3 := Apply(c, s2, LoginQuery(jti));
    events := Then(c, s, events, LoginQuery(jti), s3);
    OneMoreLoginQuery(c, s3, jti, login, [] + [a] + [a] + [a]);
    var s4 := Apply(c, s3, LoginQuery(jti));
    events := Then(c, s, events, LoginQuery(jti), s4);
    LoginStored(c, s4, jti);
    events := Then(c, s, events, LoginStore(jti), Apply(c, s4, LoginStore(jti)));
  }

  lemma ApplySignIn(c: Settings, s: State, jti: Jti, login: string)
    requires s.commits != [] && jti !in s.issued
    ensures Apply(c, s, SignIn(jti, login)) == s.(issued := s.issued + {jti}, pending := s.pending[jti := SigningIn(login, [])])
  {
  }

  /** The setup wizard stores its administrator's session for one TTL. */
  lemma SetUpStores(c: Settings, s: State, jti: Jti)
    requires s.commits != [] && jti !in s.issued && c.ttl > 0
    ensures var s' := Run(c, s, [SetUp(jti)] + [LoginStore(jti)]);
            jti in s'.store
            && s'.store[jti] == Entry(SessionData("setup_admin", ["sys_admin"], Scope([], [], true), 0), s.now + c.ttl)
  {
    hide Apply, Run;
    RunEmpty(c, s);
    ApplySetUp(c, s, jti);
    var s1 := Apply(c, s, SetUp(jti));
    var events := Then(c, s, [], SetUp(jti), s1);
    assert [] + [SetUp(jti)] == [SetUp(jti)];
    LoginStored(c, s1, jti);
    events := Then(c, s, events, LoginStore(jti), Apply(c, s1, LoginStore(jti)));
  }

  lemma ApplySetUp(c: Settings, s: State, jti: Jti)
    requires s.commits != [] && jti !in s.issued
    ensures Apply(c, s, SetUp(jti)) == s.(issued := s.issued + {jti}, pending := s.pending[jti := SettingUp])
  {
  }

  /** A completed refresh of a live session is what the next request reads, and that request is
      served from it without another refresh while the interval lasts. */
  lemma {:induction false} RefreshIsReused(c: Settings, s: State, id: nat, next: nat)
    requires Inv(c, s) && id in s.requests && s.requests[id].Writing? && next !in s.requests
    requires s.requests[id].trail.stamp.Some? && s.now - s.requests[id].trail.stamp.value <= c.interval
    ensures var r := s.requests[id];
            var data := InHand(c, r.cached, r.trail);
            var s' := SoloChecked(c, Apply(c, s, SetEx(id)), next, r.jti);
            && r.jti in s'.store && s'.store[r.jti] == Entry(data, s.now + r.ttl)
            && next in s'.requests && s'.requests[next] == Answered(data, UserOf(data), Cached, s.now, s.now)
  {
    hide Apply, SoloChecked, DataOk, TrailOk, LoginOk, UserOf;
    var r := s.requests[id];
    assert RequestOk(c, s, r);
    ApplyRequest(c, s, SetEx(id));
    SoloCheckedOutcome(c, Apply(c, s, SetEx(id)), next, r.jti);
  }

  // Ann's role and organisation change while her session is being refreshed.

  function DemoRoles(v: Version, w: Version, t: int, login: string): seq<string> {
    if v == 0 then ["analyst"] else ["viewer"]
  }

  function DemoScope(v: Version, w: Version, t: int, login: string, roles: seq<string>): Scope {
    Scope([if v == 0 then "old-org" else "new-org"], [], false)
  }

  function Demo(): Settings {
    Settings(30, 60, DemoRoles, DemoScope)
  }

  function DemoStart(): State {
    State(100, [100], map[], map[], {}, map[], 0)
  }

  function DemoData(): SessionData {
    SessionData("ann", ["analyst"], Scope(["old-org"], [], false), 0)
  }

  /** Ann has logged in, and request 7 has found her session due for a refresh. */
  function DemoRefreshing(): State {
    State(100, [100], map[1 := Entry(DemoData(), 160)], map[], {1},
          map[7 := Refreshing(1, DemoData(), NO_TRAIL, 100)], 0)
  }

  function DemoSigningIn(looks: seq<Look>): State {
    State(100, [100], map[], map[1 := SigningIn("ann", looks)], {1}, map[], 0)
  }

  lemma DemoLooks(events: seq<Event>, looks: seq<Look>) returns (longer: seq<Event>)
    requires Run(Demo(), DemoStart(), events) == DemoSigningIn(looks) && |looks| < 4
    ensures Run(Demo(), DemoStart(), longer) == DemoSigningIn(looks + [Look(0, 100)])
  {
    hide Run;
    longer := Then(Demo(), DemoStart(), events, LoginQuery(1), DemoSigningIn(looks + [Look(0, 100)]));
  }

  lemma DemoRun() returns (events: seq<Event>)
    ensures Run(Demo(), DemoStart(), events) == DemoRefreshing()
  {
    hide Run;
    var c, s, a := Demo(), DemoStart(), Look(0, 100);
    RunEmpty(c, s);
    events := Then(c, s, [], SignIn(1, "ann"), DemoSigningIn([]));
    events := DemoLooks(events, []);
    events := DemoLooks(events, [] + [a]);
    events := DemoLooks(events, [] + [a] + [a]);
    events := DemoLooks(events, [] + [a] + [a] + [a]);
    var stored := State(100, [100], map[1 := Entry(DemoData(), 160)], map[], {1}, map[], 0);
    DemoStored();
    events := Then(c, s, events, LoginStore(1), stored);
    SoloCheckedOutcome(c, stored, 7, 1);
    events := Then(c, s, events, Arrive(7, 1), Apply(c, stored, Arrive(7, 1)));
    events := Then(c, s, events, Load(7), Apply(c, Run(c, s, events), Load(7)));
    events := Then(c, s, events, CheckAge(7), Apply(c, Run(c, s, events), CheckAge(7)));
  }

  lemma DemoStored()
    ensures Apply(Demo(), DemoSigningIn([] + [Look(0, 100)] + [Look(0, 100)] + [Look(0, 100)] + [Look(0, 100)]), LoginStore(1))
         == State(100, [100], map[1 := Entry(DemoData(), 160)], map[], {1}, map[], 0)
  {
    var s := DemoSigningIn([] + [Look(0, 100)] + [Look(0, 100)] + [Look(0, 100)] + [Look(0, 100)]);
    assert LoginData(Demo(), s.pending[1]) == Some(DemoData());
    assert s.pending - {1} == map[];
  }

  lemma DemoInit()
    ensures Init(Demo(), DemoStart())
  {
  }

  /** A run after which a stored session, written by a refresh that did not fail, matches no
      single database version. */
  lemma StoredSessionCanMix() returns (events: seq<Event>)
    ensures Init(Demo(), DemoStart())
    ensures var s' := Run(Demo(), DemoStart(), events);
            1 in s'.store && forall v: Version, t :: !FromSnapshot(Demo(), s', s'.store[1].data, v, t)
  {
    hide Run, Init;
    DemoInit();
    var first := DemoRun();
    var rest := RefreshCanMixVersions(Demo(), DemoRefreshing(), 7, 0);
    RunAppend(Demo(), DemoStart(), first, rest);
    events := first + rest;
    assert ["viewer"][0] != ["analyst"][0] && ["old-org"][0] != ["new-org"][0];
  }

  /** A run in which a session is logged out and is nevertheless in the store later on. */
  lemma LoggedOutSessionCanReturn() returns (before: seq<Event>, after: seq<Event>)
    ensures Init(Demo(), DemoStart())
    ensures before != [] && before[|before| - 1] == Logout(1)
    ensures 1 !in Run(Demo(), DemoStart(), before).store && 1 in Run(Demo(), DemoStart(), before + after).store
  {
    hide Run, Init;
    var c, s := Demo(), DemoStart();
    DemoInit();
    var first := DemoRun();
    var reading := SlowReads(c, DemoRefreshing(), 7, 0);
    RunAppend(c, s, first, reading);
    var s1 := Run(c, s, first + reading);
    LogoutCanBeUndone(c, s1, 7, 0);
    before := first + reading + ([ReadTtl(7)] + [Logout(1)]);
    after := [Tick(0)] + [SetEx(7)];
    RunAppend(c, s, first + reading, [ReadTtl(7)] + [Logout(1)]);
    RunAppend(c, s, first + reading, [ReadTtl(7)] + [Logout(1)] + [Tick(0)] + [SetEx(7)]);
    assert before + after == first + reading + ([ReadTtl(7)] + [Logout(1)] + [Tick(0)] + [SetEx(7)]);
  }

  /** When the scope statements fail, the answer can pair fresh roles with an older scope, so that
      they differ from the cached roles and no single version explains the answer. */
  lemma FallbackCanMixSnapshots() returns (events: seq<Event>)
    ensures Init(Demo(), DemoStart())
    ensures var s' := Run(Demo(), DemoStart(), events);
            && 7 in s'.requests && s'.requests[7].Answered? && s'.requests[7].outcome == ScopeFailed
            && s'.requests[7].user.roles != s'.requests[7].cached.roles
            && !OneVersion(Demo(), s', s'.requests[7].user)
  {
    hide Run, Init, Apply;
    var c, s := Demo(), DemoStart();
    DemoInit();
    events := DemoRun();
    var s1 := DemoRefreshing().(commits := [100, 100]);
    assert [100] + [100] == [100, 100];
    ApplyCommit(c, DemoRefreshing());
    events := Then(c, s, events, Commit, s1);
    RolesReadOutcome(c, s1, 7);
    events := Then(c, s, events, Query(7), Apply(c, s1, Query(7)));
    events := Then(c, s, events, Query(7), Apply(c, Run(c, s, events), Query(7)));
    events := Then(c, s, events, Stamp(7), RolesRead(c, s1, 7));
    ApplyRequest(c, RolesRead(c, s1, 7), Fail(7));
    events := Then(c, s, events, Fail(7), Apply(c, RolesRead(c, s1, 7), Fail(7)));
    var user := Run(c, s, events).requests[7].user;
    assert user == User("ann", ["viewer"], ["old-org"], [], false);
    assert ["viewer"][0] != ["analyst"][0] && ["old-org"][0] != ["new-org"][0];
    NoVersionExplains(Run(c, s, events));
  }

  lemma NoVersionExplains(s: State)
    ensures !OneVersion(Demo(), s, User("ann", ["viewer"], ["old-org"], [], false))
  {
    assert ["viewer"][0] != ["analyst"][0] && ["old-org"][0] != ["new-org"][0];
  }
}
