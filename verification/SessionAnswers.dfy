/** What a session holds and what a request is answered (backend/app/deps.py, get_current_user),
    over every run of the session machine. */
module SessionAnswers {
  import opened Sessions

  // ---------------------------------------------------------------------------
  // Main results, over every interleaving

  lemma OneSnapshotOrACommit(c: Settings, s: State, login: string, trail: Trail)
    requires InOrder(s.commits) && TrailOk(s, trail) && |trail.looks| == 4
    ensures FromSnapshot(c, s, DataOf(c, login, trail), trail.looks[0].version, trail.looks[0].at)
            || CommitDuring(s, trail.looks)
  {
    var first, last := trail.looks[0], trail.looks[3];
    if first.version < last.version {
      assert first.at <= s.commits[first.version + 1] <= s.commits[last.version] <= last.at;
    } else {
      assert forall i :: 0 <= i < 4 ==> first.version <= trail.looks[i].version <= last.version;
    }
  }

  /** Whatever the database holds, these statements give a session of one snapshot. */
  ghost predicate AlwaysOneSnapshot(c: Settings, s: State, login: string, trail: Trail)
    requires |trail.looks| == 4
  {
    forall f, g :: OneSnapshot(c.(resolveRoles := f, userScope := g), s, login, trail)
  }

  ghost predicate OneSnapshot(c: Settings, s: State, login: string, trail: Trail)
    requires |trail.looks| == 4
  {
    exists v, t :: FromSnapshot(c, s, DataOf(c, login, trail), v, t)
  }

  /** Contents that tell every version from every other. */
  function Bars(n: nat): (bars: string)
    ensures |bars| == n
  {
    seq(n, _ => '|')
  }

  function Telltale(c: Settings): Settings {
    c.(resolveRoles := (v: Version, w: Version, t: int, login: string) => [Bars(v), Bars(w)],
       userScope := (v: Version, w: Version, t: int, login: string, roles: seq<string>) =>
         Scope([Bars(v)], [Bars(w)], false))
  }

  lemma SameBars(v: nat, w: nat)
    requires Bars(v) == Bars(w)
    ensures v == w
  {
    assert |Bars(v)| == |Bars(w)|;
  }

  lemma OneVersionRead(s: State, looks: seq<Look>, v: Version)
    requires |looks| == 4
    requires [Bars(looks[0].version), Bars(looks[1].version)] == [Bars(v), Bars(v)]
    requires [Bars(looks[2].version)] == [Bars(v)] && [Bars(looks[3].version)] == [Bars(v)]
    ensures !CommitDuring(s, looks)
  {
    hide Bars;
    SameBars(looks[0].version, v);
    SameBars(looks[3].version, v);
  }

  /** Four statements give a session of one snapshot, whatever the database holds, if and only if
      no commit fell between the first of them and the last. */
  lemma {:induction false} OneSnapshotExactlyWhen(c: Settings, s: State, login: string, trail: Trail)
    requires InOrder(s.commits) && TrailOk(s, trail) && |trail.looks| == 4
    ensures AlwaysOneSnapshot(c, s, login, trail) <==> !CommitDuring(s, trail.looks)
  {
    hide CommitDuring, TrailOk, InOrder, Bars;
    if CommitDuring(s, trail.looks) {
      var f, g := Telltale(c).resolveRoles, Telltale(c).userScope;
      var c' := c.(resolveRoles := f, userScope := g);
      if OneSnapshot(c', s, login, trail) {
        var v, t :| FromSnapshot(c', s, DataOf(c', login, trail), v, t);
        OneVersionRead(s, trail.looks, v);
      }
    } else {
      forall f, g ensures OneSnapshot(c.(resolveRoles := f, userScope := g), s, login, trail) {
        OneSnapshotOrACommit(c.(resolveRoles := f, userScope := g), s, login, trail);
      }
    }
  }

  /** Over every interleaving, a stored session is what one refresh or login saw with its four
      statements; it is of one snapshot, whatever the database held, if and only if no commit
      fell between them. */
  lemma {:induction false} StoredSessionIsOneSnapshot(c: Settings, s: State, events: seq<Event>, jti: Jti)
    requires Init(c, s)
    requires jti in Run(c, s, events).store
    ensures var s' := Run(c, s, events);
            var data := s'.store[jti].data;
            data == SETUP_DATA || exists trail ::
              FromTrail(c, s', data, trail)
              && (AlwaysOneSnapshot(c, s', data.login, trail) <==> !CommitDuring(s', trail.looks))
              && (CommitDuring(s', trail.looks)
                  || FromSnapshot(c, s', data, trail.looks[0].version, trail.looks[0].at))
  {
    hide Run, TrailOk, FromSnapshot, CommitDuring, AlwaysOneSnapshot, RequestOk, LoginOk, InOrder;
    InitInv(c, s);
    RunKeepsInv(c, s, events);
    var s' := Run(c, s, events);
    var data := s'.store[jti].data;
    assert DataOk(c, s', data);
    if data != SETUP_DATA {
      var trail :| FromTrail(c, s', data, trail);
      OneSnapshotOrACommit(c, s', data.login, trail);
      OneSnapshotExactlyWhen(c, s', data.login, trail);
    }
  }

  lemma RunRequestOk(c: Settings, s: State, events: seq<Event>, id: nat)
    requires Init(c, s) && id in Run(c, s, events).requests
    ensures Inv(c, Run(c, s, events))
    ensures RequestOk(c, Run(c, s, events), Run(c, s, events).requests[id])
  {
    hide Run, RequestOk, DataOk, LoginOk;
    InitInv(c, s);
    RunKeepsInv(c, s, events);
  }

  /** The request is answered, is not exempt from the refresh, and no role statement failed. */
  predicate ChecksRoles(s: State, id: nat) {
    id in s.requests && s.requests[id].Answered?
    && s.requests[id].outcome != Exempt && s.requests[id].outcome != RolesFailed
  }

  /** Unless a role statement failed, a user's roles are what its two role statements saw, the
      earlier of them no more than one interval and the run's lag before the age check. With no
      failed statement the whole answer is what four statements saw by then. */
  lemma {:induction false} AnswersAreTimely(c: Settings, s: State, events: seq<Event>, id: nat)
    requires Init(c, s)
    requires ChecksRoles(Run(c, s, events), id)
    ensures var s' := Run(c, s, events);
            var r := s'.requests[id];
            exists looks :: RolesHeld(c, s', r, looks) && (r.outcome != ScopeFailed ==> Explained(c, r.user, looks))
  {
    hide Run, Inv, DataOk, RolesHeld, Explained;
    RunRequestOk(c, s, events, id);
    var s' := Run(c, s, events);
    var r := s'.requests[id];
    if r.outcome == ScopeFailed {
      var looks :| RolesHeld(c, s', r, looks);
    }
  }

  /** A change committed more than one interval and the run's lag before a request's age check is
      visible to it: both role statements saw that version or a later one. */
  lemma {:induction false} RevocationTakesEffect(c: Settings, s: State, events: seq<Event>, id: nat, change: Version)
    requires Init(c, s)
    requires ChecksRoles(Run(c, s, events), id)
    requires change < |Run(c, s, events).commits|
    requires var s' := Run(c, s, events); s'.commits[change] + c.interval + s'.lag < s'.requests[id].checkedAt
    ensures var s' := Run(c, s, events);
            var r := s'.requests[id];
            exists v: Version, w: Version, t: int ::
              && change <= v <= w < |s'.commits| && r.checkedAt - c.interval - s'.lag <= t
              && r.user.roles == c.resolveRoles(v, w, t, r.user.login)
  {
    hide Run, RequestOk, Explained;
    RunRequestOk(c, s, events, id);
    AnswersAreTimely(c, s, events, id);
    var s' := Run(c, s, events);
    var r := s'.requests[id];
    var looks: seq<Look> :| RolesHeld(c, s', r, looks);
    LooksSorted(s', looks);
    SeesChange(c, s', looks[0], change);
    SeesChange(c, s', looks[1], change);
    assert looks[0].version <= looks[1].version;
  }

  lemma SeesChange(c: Settings, s: State, look: Look, change: Version)
    requires Inv(c, s) && HeldAt(s.commits, look.version, look.at)
    requires change < |s.commits| && s.commits[change] < look.at
    ensures change <= look.version
  {
    hide Inv;
    if look.version < change {
      CommitsSorted(c, s, look.version + 1, change);
    }
  }

  lemma CommitsSorted(c: Settings, s: State, i: nat, j: nat)
    requires Inv(c, s) && i <= j < |s.commits|
    ensures s.commits[i] <= s.commits[j]
  {
    hide DataOk, RequestOk, LoginOk;
  }

  /** A grant that lapses by its expiry date takes effect like a commit: when no version gives
      the login this role from second t on, no answer whose age check is more than one interval
      and the run's lag later carries it. */
  lemma {:induction false} LapseTakesEffect(c: Settings, s: State, events: seq<Event>, id: nat, role: string, t: int)
    requires Init(c, s)
    requires ChecksRoles(Run(c, s, events), id)
    requires forall v, w, now :: now >= t ==>
      role !in c.resolveRoles(v, w, now, Run(c, s, events).requests[id].user.login)
    requires var s' := Run(c, s, events); t + c.interval + s'.lag < s'.requests[id].checkedAt
    ensures role !in Run(c, s, events).requests[id].user.roles
  {
    hide Run, RequestOk, Explained;
    AnswersAreTimely(c, s, events, id);
    var s' := Run(c, s, events);
    var looks: seq<Look> :| RolesHeld(c, s', s'.requests[id], looks);
  }

  /** Roles and scope of the answer belong to one version, at one moment it was held. */
  ghost predicate OneVersion(c: Settings, s: State, user: User) {
    exists v, t :: HeldAt(s.commits, v, t) && ShowsReads(c, user, v, v, v, v, t)
  }

  /** Whatever the database holds, these statements give an answer of one version. */
  ghost predicate AlwaysOneVersion(c: Settings, s: State, login: string, looks: seq<Look>)
    requires |looks| == 4
  {
    forall f, g :: ReadsOneVersion(c.(resolveRoles := f, userScope := g), s, login, looks)
  }

  ghost predicate ReadsOneVersion(c: Settings, s: State, login: string, looks: seq<Look>)
    requires |looks| == 4
  {
    OneVersion(c, s, UserOf(DataOf(c, login, Trail(looks, None))))
  }

  lemma OneVersionOrACommit(c: Settings, s: State, login: string, looks: seq<Look>)
    requires InOrder(s.commits) && LooksOk(s, looks) && |looks| == 4
    ensures ReadsOneVersion(c, s, login, looks) || CommitDuring(s, looks)
  {
    hide InOrder, LooksOk, CommitDuring;
    var data := DataOf(c, login, Trail(looks, None));
    OneSnapshotOrACommit(c, s, login, Trail(looks, None));
    if !CommitDuring(s, looks) {
      assert ShowsReads(c, UserOf(data), looks[0].version, looks[0].version, looks[0].version, looks[0].version, looks[0].at);
    }
  }

  /** Four statements give an answer of one version, whatever the database holds, if and only if
      no commit fell between the first of them and the last. */
  lemma {:induction false} OneVersionExactlyWhen(c: Settings, s: State, login: string, looks: seq<Look>)
    requires InOrder(s.commits) && LooksOk(s, looks) && |looks| == 4
    ensures AlwaysOneVersion(c, s, login, looks) <==> !CommitDuring(s, looks)
  {
    hide CommitDuring, LooksOk, InOrder, Bars, HeldAt;
    if CommitDuring(s, looks) {
      var f, g := Telltale(c).resolveRoles, Telltale(c).userScope;
      var c' := c.(resolveRoles := f, userScope := g);
      if ReadsOneVersion(c', s, login, looks) {
        var user := UserOf(DataOf(c', login, Trail(looks, None)));
        var v, t :| HeldAt(s.commits, v, t) && ShowsReads(c', user, v, v, v, v, t);
        OneVersionRead(s, looks, v);
      }
    } else {
      forall f, g ensures ReadsOneVersion(c.(resolveRoles := f, userScope := g), s, login, looks) {
        OneVersionOrACommit(c.(resolveRoles := f, userScope := g), s, login, looks);
      }
    }
  }

  lemma ExplainingLooks(c: Settings, s: State, r: Request) returns (looks: seq<Look>)
    requires r.Answered? && AnswerOk(c, s, r)
    requires r.outcome == Refreshed || r.outcome == StoreFailed || r.outcome == Cached
    ensures LooksOk(s, looks) && Explained(c, r.user, looks) && |looks| == 4
  {
    hide LooksOk;
    looks :| RolesHeld(c, s, r, looks) && Explained(c, r.user, looks);
  }

  /** Over every run, unless the scope is what failed, an answer is what one refresh or login
      saw with its four statements; one version explains it, whatever the database held, if and
      only if no commit fell between them. A failed role statement and a failed store call are
      included. */
  lemma {:induction false} AnswerIsOneRefresh(c: Settings, s: State, events: seq<Event>, id: nat)
    requires Init(c, s)
    requires id in Run(c, s, events).requests && Run(c, s, events).requests[id].Answered?
    requires Run(c, s, events).requests[id].outcome != ScopeFailed
    ensures var s' := Run(c, s, events);
            var user := s'.requests[id].user;
            user == UserOf(SETUP_DATA) || exists looks ::
              LooksOk(s', looks) && Explained(c, user, looks)
              && (OneVersion(c, s', user) || CommitDuring(s', looks))
              && (AlwaysOneVersion(c, s', user.login, looks) <==> !CommitDuring(s', looks))
  {
    hide Run, OneVersion, AlwaysOneVersion, CommitDuring, LooksOk, LoginOk, InOrder;
    RunRequestOk(c, s, events, id);
    var s' := Run(c, s, events);
    var r := s'.requests[id];
    if r.outcome == Refreshed || r.outcome == StoreFailed || r.outcome == Cached {
      var looks := ExplainingLooks(c, s', r);
      OneVersionOrACommit(c, s', r.user.login, looks);
      OneVersionExactlyWhen(c, s', r.user.login, looks);
    } else if r.cached != SETUP_DATA {
      var trail :| FromTrail(c, s', r.cached, trail);
      assert Explained(c, r.user, trail.looks);
      OneVersionOrACommit(c, s', r.user.login, trail.looks);
      OneVersionExactlyWhen(c, s', r.user.login, trail.looks);
    }
  }

  // ---------------------------------------------------------------------------
  // The answer, field by field

  /** A session holds the setup wizard's administrator, or what four statements gave at its login
      or at a refresh. */
  ghost predicate CachedIsGiven(c: Settings, s: State, cached: SessionData) {
    || (cached.login == "setup_admin" && cached.roles == ["sys_admin"]
        && cached.scope.orgs == [] && cached.scope.repos == [] && cached.scope.isGlobal)
    || exists looks :: LooksOk(s, looks) && Gave(c, looks, cached.login, cached.roles, cached.scope)
  }

  /** The answer shows what the request's own statements gave as far as they got, and the cached
      session for the rest. */
  ghost predicate AnswerIsGiven(c: Settings, s: State, r: Request)
    requires r.Answered?
  {
    match r.outcome
    case Exempt => r.cached.login == "setup_admin" && Shows(r.user, r.cached.login, r.cached.roles, r.cached.scope)
    case Cached => Shows(r.user, r.cached.login, r.cached.roles, r.cached.scope)
    case RolesFailed => Shows(r.user, r.cached.login, r.cached.roles, r.cached.scope)
    case ScopeFailed =>
      exists looks: seq<Look> :: OwnLooks(s, r, looks) && Shows(r.user, r.cached.login,
        c.resolveRoles(looks[0].version, looks[1].version, looks[0].at, r.cached.login), r.cached.scope)
    case _ =>
      exists looks: seq<Look>, scope :: OwnLooks(s, r, looks)
        && Gave(c, looks, r.cached.login, r.user.roles, scope) && Shows(r.user, r.cached.login, r.user.roles, scope)
  }

  /** Statements run between the request's age check and its answer. */
  ghost predicate OwnLooks(s: State, r: Request, looks: seq<Look>)
    requires r.Answered?
  {
    && |looks| >= 2 && LooksOk(s, looks)
    && r.checkedAt <= looks[0].at && looks[|looks| - 1].at <= r.answeredAt
  }

  lemma DataIsGiven(c: Settings, s: State, data: SessionData)
    requires DataOk(c, s, data)
    ensures CachedIsGiven(c, s, data)
  {
    hide LooksOk;
    if data != SETUP_DATA {
      var trail :| FromTrail(c, s, data, trail);
      assert Gave(c, trail.looks, data.login, data.roles, data.scope);
    }
  }

  lemma AnswerOkIsGiven(c: Settings, s: State, r: Request)
    requires r.Answered? && AnswerOk(c, s, r)
    ensures AnswerIsGiven(c, s, r)
  {
    hide LooksOk;
    if r.outcome == ScopeFailed {
      var looks :| OwnRoles(c, s, r, looks);
      assert OwnLooks(s, r, looks);
    } else if r.outcome == Refreshed || r.outcome == StoreFailed {
      var looks: seq<Look> :| OwnRoles(c, s, r, looks) && Explained(c, r.user, looks);
      var scope := c.userScope(looks[2].version, looks[3].version, looks[0].at, r.cached.login, r.user.roles);
      assert OwnLooks(s, r, looks) && Gave(c, looks, r.cached.login, r.user.roles, scope);
    }
  }

  /** Over every run, every field of every answer: login, roles, organisations, repositories, and
      the global flag, which holds if and only if the roles shown contain an administrator's or
      the scope shown is global. */
  lemma {:induction false} AnswerFieldByField(c: Settings, s: State, events: seq<Event>, id: nat)
    requires Init(c, s)
    requires id in Run(c, s, events).requests && Run(c, s, events).requests[id].Answered?
    ensures var s' := Run(c, s, events);
            AnswerIsGiven(c, s', s'.requests[id]) && CachedIsGiven(c, s', s'.requests[id].cached)
  {
    hide Run, Inv, AnswerOk, DataOk, AnswerIsGiven, CachedIsGiven;
    RunRequestOk(c, s, events, id);
    var s' := Run(c, s, events);
    AnswerOkIsGiven(c, s', s'.requests[id]);
    DataIsGiven(c, s', s'.requests[id].cached);
  }

  // ---------------------------------------------------------------------------
  // Whose session it is

  predicate DrawsId(e: Event, jti: Jti) {
    (e.SignIn? || e.SetUp?) && e.jti == jti
  }

  /** The first event that draws this session id is this login's. */
  ghost predicate DrawnBy(events: seq<Event>, n: nat, jti: Jti, login: string) {
    && n < |events| && (events[n] == SignIn(jti, login) || (events[n] == SetUp(jti) && login == "setup_admin"))
    && forall k: nat :: k < n ==> !DrawsId(events[k], jti)
  }

  ghost predicate OwnedBy(events: seq<Event>, jti: Jti, login: string) {
    exists n: nat :: DrawnBy(events, n, jti, login)
  }

  /** The request arrived with this session id. */
  ghost predicate CameWith(events: seq<Event>, n: nat, id: nat, jti: Jti) {
    && n < |events| && events[n] == Arrive(id, jti)
    && forall k: nat :: k < n ==> !(events[k].Arrive? && events[k].id == id)
  }

  ghost predicate IsRequestOf(events: seq<Event>, id: nat, jti: Jti) {
    exists n: nat :: CameWith(events, n, id, jti)
  }

  ghost predicate RequestOwned(events: seq<Event>, id: nat, r: Request) {
    exists jti :: IsRequestOf(events, id, jti) && Belongs(events, r, jti)
  }

  ghost predicate Belongs(events: seq<Event>, r: Request, jti: Jti) {
    match r
    case Arrived(j) => j == jti
    case Loaded(j, cached) => j == jti && OwnedBy(events, jti, cached.login)
    case Refreshing(j, cached, _, _) => j == jti && OwnedBy(events, jti, cached.login)
    case Writing(j, cached, _, _, _, _) => j == jti && OwnedBy(events, jti, cached.login)
    case Answered(_, user, _, _, _) => OwnedBy(events, jti, user.login)
    case Rejected => true
  }

  function LoginName(l: Login): string {
    if l.SigningIn? then l.login else "setup_admin"
  }

  ghost predicate StoreOwned(s: State, events: seq<Event>) {
    && (forall j :: j in s.pending ==> OwnedBy(events, j, LoginName(s.pending[j])))
    && (forall j :: j in s.store ==> OwnedBy(events, j, s.store[j].data.login))
  }

  ghost predicate Owned(s: State, events: seq<Event>) {
    && StoreOwned(s, events)
    && (forall id :: id in s.requests ==> RequestOwned(events, id, s.requests[id]))
    && (forall k: nat :: k < |events| && (events[k].SignIn? || events[k].SetUp?) ==> events[k].jti in s.issued)
    && (forall k: nat :: k < |events| && events[k].Arrive? ==> events[k].id in s.requests)
  }

  lemma OwnedByLater(events: seq<Event>, e: Event, jti: Jti, login: string)
    requires OwnedBy(events, jti, login)
    ensures OwnedBy(events + [e], jti, login)
  {
    var n: nat :| DrawnBy(events, n, jti, login);
    assert DrawnBy(events + [e], n, jti, login);
  }

  lemma RequestOwnedLater(events: seq<Event>, e: Event, id: nat, r: Request)
    requires RequestOwned(events, id, r)
    ensures RequestOwned(events + [e], id, r)
  {
    hide OwnedBy;
    var jti :| IsRequestOf(events, id, jti) && Belongs(events, r, jti);
    StillRequestOf(events, e, id, jti);
    StillBelongs(events, e, r, jti);
  }

  lemma StillRequestOf(events: seq<Event>, e: Event, id: nat, jti: Jti)
    requires IsRequestOf(events, id, jti)
    ensures IsRequestOf(events + [e], id, jti)
  {
    var n: nat :| CameWith(events, n, id, jti);
    assert CameWith(events + [e], n, id, jti);
  }

  lemma StillBelongs(events: seq<Event>, e: Event, r: Request, jti: Jti)
    requires Belongs(events, r, jti)
    ensures Belongs(events + [e], r, jti)
  {
    hide OwnedBy;
    match r
    case Loaded(_, cached) => OwnedByLater(events, e, jti, cached.login);
    case Refreshing(_, cached, _, _) => OwnedByLater(events, e, jti, cached.login);
    case Writing(_, cached, _, _, _, _) => OwnedByLater(events, e, jti, cached.login);
    case Answered(_, user, _, _, _) => OwnedByLater(events, e, jti, user.login);
    case _ =>
  }

  lemma NewlyDrawn(s: State, events: seq<Event>, e: Event, login: string)
    requires Owned(s, events) && (e.SignIn? || e.SetUp?) && e.jti !in s.issued
    requires login == if e.SignIn? then e.login else "setup_admin"
    ensures OwnedBy(events + [e], e.jti, login)
  {
    hide StoreOwned, RequestOwned;
    assert DrawnBy(events + [e], |events|, e.jti, login);
  }

  lemma NewlyArrived(s: State, events: seq<Event>, e: Event)
    requires Owned(s, events) && e.Arrive? && e.id !in s.requests
    ensures RequestOwned(events + [e], e.id, Arrived(e.jti))
  {
    hide StoreOwned, RequestOwned;
    assert CameWith(events + [e], |events|, e.id, e.jti);
    assert IsRequestOf(events + [e], e.id, e.jti);
    ArrivedBelongs(events + [e], e.id, e.jti);
  }

  lemma ArrivedBelongs(events: seq<Event>, id: nat, jti: Jti)
    requires IsRequestOf(events, id, jti)
    ensures RequestOwned(events, id, Arrived(jti))
  {
    assert Belongs(events, Arrived(jti), jti);
  }

  lemma RequestStepFrame(c: Settings, s: State, e: Event)
    requires s.commits != [] && IsRequestStep(e) && e.id in s.requests
    ensures var s', r := RequestStep(c, s, e), s.requests[e.id];
            && s'.requests.Keys == s.requests.Keys && s'.pending == s.pending && s'.issued == s.issued
            && (forall id :: id in s.requests && id != e.id ==> s'.requests[id] == s.requests[id])
            && (s'.store == s.store || (r.Writing? && r.jti in s'.store && s'.store == s.store[r.jti := s'.store[r.jti]]
                                        && s'.store[r.jti].data.login == r.cached.login))
  {
    hide UserOf;
  }

  lemma RequestStepBelongs(c: Settings, s: State, e: Event, events: seq<Event>, jti: Jti)
    requires s.commits != [] && IsRequestStep(e) && e.id in s.requests && Belongs(events, s.requests[e.id], jti)
    requires jti in s.store ==> OwnedBy(events, jti, s.store[jti].data.login)
    ensures Belongs(events, RequestStep(c, s, e).requests[e.id], jti)
  {
    hide OwnedBy;
  }

  /** A step of a request keeps it with its session, and writes the store for that session only. */
  lemma RequestStepOwned(c: Settings, s: State, e: Event, events: seq<Event>)
    requires s.commits != [] && IsRequestStep(e) && e.id in s.requests && Owned(s, events)
    ensures var s' := RequestStep(c, s, e);
            && s'.requests.Keys == s.requests.Keys && s'.pending == s.pending && s'.issued == s.issued
            && (forall id :: id in s.requests && id != e.id ==> s'.requests[id] == s.requests[id])
            && RequestOwned(events, e.id, s'.requests[e.id])
            && (forall j :: j in s'.store ==> OwnedBy(events, j, s'.store[j].data.login))
  {
    hide OwnedBy, IsRequestOf, RequestStep;
    RequestStepFrame(c, s, e);
    var jti :| IsRequestOf(events, e.id, jti) && Belongs(events, s.requests[e.id], jti);
    RequestStepBelongs(c, s, e, events, jti);
  }

  lemma LoginStepOwned(c: Settings, s: State, e: Event, events: seq<Event>)
    requires s.commits != [] && !IsRequestStep(e) && Owned(s, events)
    ensures StoreOwned(Apply(c, s, e), events + [e])
  {
    hide OwnedBy, RequestOwned;
    var s' := Apply(c, s, e);
    forall j | j in s.pending ensures OwnedBy(events + [e], j, LoginName(s.pending[j])) {
      OwnedByLater(events, e, j, LoginName(s.pending[j]));
    }
    forall j | j in s.store ensures OwnedBy(events + [e], j, s.store[j].data.login) {
      OwnedByLater(events, e, j, s.store[j].data.login);
    }
    if (e.SignIn? || e.SetUp?) && e.jti !in s.issued {
      NewlyDrawn(s, events, e, if e.SignIn? then e.login else "setup_admin");
    }
  }

  lemma OwnedStep(c: Settings, s: State, e: Event, events: seq<Event>)
    requires s.commits != [] && Owned(s, events)
    ensures Owned(Apply(c, s, e), events + [e])
  {
    hide OwnedBy, RequestOwned, StoreOwned, RequestStep, LoginData;
    var s' := Apply(c, s, e);
    forall id | id in s.requests ensures RequestOwned(events + [e], id, s.requests[id]) {
      RequestOwnedLater(events, e, id, s.requests[id]);
    }
    KeepsStoreOwned(s, events);
    if IsRequestStep(e) {
      ApplyRequest(c, s, e);
      if e.id in s.requests {
        RequestStepOwned(c, s, e, events);
        RequestOwnedLater(events, e, e.id, s'.requests[e.id]);
      }
      StoreOwnedLater(s', events, e);
    } else {
      LoginStepOwned(c, s, e, events);
      if e.Arrive? && e.id !in s.requests {
        NewlyArrived(s, events, e);
      }
    }
  }

  lemma KeepsStoreOwned(s: State, events: seq<Event>)
    requires Owned(s, events)
    ensures forall j :: j in s.pending ==> OwnedBy(events, j, LoginName(s.pending[j]))
    ensures forall j :: j in s.store ==> OwnedBy(events, j, s.store[j].data.login)
  {
  }

  lemma StoreOwnedLater(s: State, events: seq<Event>, e: Event)
    requires forall j :: j in s.pending ==> OwnedBy(events, j, LoginName(s.pending[j]))
    requires forall j :: j in s.store ==> OwnedBy(events, j, s.store[j].data.login)
    ensures StoreOwned(s, events + [e])
  {
    hide OwnedBy;
    forall j | j in s.pending ensures OwnedBy(events + [e], j, LoginName(s.pending[j])) {
      OwnedByLater(events, e, j, LoginName(s.pending[j]));
    }
    forall j | j in s.store ensures OwnedBy(events + [e], j, s.store[j].data.login) {
      OwnedByLater(events, e, j, s.store[j].data.login);
    }
  }

  lemma {:induction false} RunOwned(c: Settings, s: State, events: seq<Event>)
    requires Init(c, s)
    ensures Owned(Run(c, s, events), events)
    decreases |events|
  {
    hide Apply, OwnedBy, RequestOwned;
    if events != [] {
      var m := |events| - 1;
      RunOwned(c, s, events[..m]);
      OwnedStep(c, Run(c, s, events[..m]), events[m], events[..m]);
      assert events[..m] + [events[m]] == events;
    }
  }

  /** Over every run, a session in the store is of the login that drew its id, in whatever order
      refreshes land, and an answer is about the login whose session id the request came with. */
  lemma {:induction false} NobodyElsesSession(c: Settings, s: State, events: seq<Event>)
    requires Init(c, s)
    ensures var s' := Run(c, s, events);
            && (forall j :: j in s'.store ==> OwnedBy(events, j, s'.store[j].data.login))
            && (forall id :: id in s'.requests && s'.requests[id].Answered? ==>
                  exists j :: IsRequestOf(events, id, j) && OwnedBy(events, j, s'.requests[id].user.login))
  {
    hide Run, OwnedBy, IsRequestOf;
    RunOwned(c, s, events);
  }

  /** A session id has one owner, and a request one session id. */
  lemma OneOwner(events: seq<Event>, jti: Jti, a: string, b: string, id: nat, i: Jti, j: Jti)
    ensures OwnedBy(events, jti, a) && OwnedBy(events, jti, b) ==> a == b
    ensures IsRequestOf(events, id, i) && IsRequestOf(events, id, j) ==> i == j
  {
    if OwnedBy(events, jti, a) && OwnedBy(events, jti, b) {
      var n: nat :| DrawnBy(events, n, jti, a);
      var m: nat :| DrawnBy(events, m, jti, b);
      assert n <= m && m <= n;
    }
    if IsRequestOf(events, id, i) && IsRequestOf(events, id, j) {
      var n: nat :| CameWith(events, n, id, i);
      var m: nat :| CameWith(events, m, id, j);
      assert n <= m && m <= n;
    }
  }

  // ---------------------------------------------------------------------------
  // "Fall back to cached roles if refresh fails"

  predicate InTry(s: State, id: nat) {
    id in s.requests && (s.requests[id].Refreshing? || s.requests[id].Writing?)
  }

  /** The user a request gets if its refresh fails now. */
  function FallbackUser(c: Settings, s: State, id: nat): User
    requires s.commits != [] && InTry(s, id)
  {
    Apply(c, s, Fail(id)).requests[id].user
  }

  lemma FallbackIsInHand(c: Settings, s: State, id: nat)
    requires s.commits != [] && InTry(s, id)
    ensures FallbackUser(c, s, id) == UserOf(InHand(c, s.requests[id].cached, s.requests[id].trail))
  {
    hide InHand, UserOf;
  }

  /** The answer shows exactly the organisations and repositories of the cached session. */
  predicate CachedScope(user: User, cached: SessionData) {
    user.orgs == cached.scope.orgs && user.repos == cached.scope.repos
  }

  /** A failed refresh leaves every stored session alone. It answers with the cached roles,
      whatever the database holds, if and only if the role statements had not both returned; and
      with the cached organisations and repositories if and only if the scope statements had not. */
  lemma {:induction false} FallbackIsCachedExactlyWhen(c: Settings, s: State, id: nat)
    requires Inv(c, s) && InTry(s, id)
    ensures Apply(c, s, Fail(id)).store == s.store
    ensures var r := s.requests[id];
            (forall f :: FallbackUser(c.(resolveRoles := f), s, id).roles == r.cached.roles) <==> r.trail.stamp.None?
    ensures var r := s.requests[id];
            (forall f :: CachedScope(FallbackUser(c.(userScope := f), s, id), r.cached)) <==> |r.trail.looks| < 4
  {
    hide FallbackUser, Apply, DataOk, LoginOk, LooksOk;
    FailedRefreshKeepsStore(c, s, id);
    var r := s.requests[id];
    assert RequestOk(c, s, r);
    forall f ensures FallbackUser(c.(resolveRoles := f), s, id) == UserOf(InHand(c.(resolveRoles := f), r.cached, r.trail)) {
      FallbackIsInHand(c.(resolveRoles := f), s, id);
    }
    forall f ensures FallbackUser(c.(userScope := f), s, id) == UserOf(InHand(c.(userScope := f), r.cached, r.trail)) {
      FallbackIsInHand(c.(userScope := f), s, id);
    }
    var otherRoles := (v: Version, w: Version, t: int, login: string) => r.cached.roles + [""];
    assert r.trail.stamp.Some? ==> FallbackUser(c.(resolveRoles := otherRoles), s, id).roles == r.cached.roles + [""];
    var otherScope := (v: Version, w: Version, t: int, login: string, roles: seq<string>) =>
      Scope(r.cached.scope.orgs + [""], [], false);
    assert |r.trail.looks| == 4 ==> FallbackUser(c.(userScope := otherScope), s, id).orgs == r.cached.scope.orgs + [""];
  }

  lemma FailedRefreshKeepsStore(c: Settings, s: State, id: nat)
    requires s.commits != []
    ensures Apply(c, s, Fail(id)).store == s.store
  {
    hide InHand, UserOf;
  }
}
