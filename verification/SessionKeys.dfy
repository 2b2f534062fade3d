/** When a session's key is there and what its deadline is (backend/app/deps.py and
    backend/app/routers/auth.py), over every run of the session machine. */
module SessionKeys {
  import opened Sessions

  // ---------------------------------------------------------------------------
  // Keys and deadlines

  /** A session id that was drawn and whose key is gone. */
  predicate Dead(s: State, jti: Jti) {
    jti in s.issued && jti !in s.store && jti !in s.pending
  }

  /** Request id has read a positive TTL of this key and not written it yet. */
  predicate WritingTo(s: State, id: nat, jti: Jti) {
    id in s.requests && s.requests[id].Writing? && s.requests[id].jti == jti
  }

  ghost predicate OpenWrite(s: State, jti: Jti) {
    exists id :: WritingTo(s, id, jti)
  }

  lemma DeadStep(c: Settings, s: State, e: Event, jti: Jti)
    requires s.commits != [] && Dead(s, jti) && !OpenWrite(s, jti)
    ensures Dead(Apply(c, s, e), jti) && !OpenWrite(Apply(c, s, e), jti)
  {
    hide UserOf, InHand, LoginData, OpenWrite;
    var s' := Apply(c, s, e);
    forall id ensures !WritingTo(s', id, jti) {
      NotWriting(s, id, jti);
    }
    NoneWriting(s', jti);
    if e.SetEx? {
      NotWriting(s, e.id, jti);
    }
  }

  lemma NotWriting(s: State, id: nat, jti: Jti)
    requires !OpenWrite(s, jti)
    ensures !WritingTo(s, id, jti)
  {
  }

  lemma NoneWriting(s: State, jti: Jti)
    requires forall id :: !WritingTo(s, id, jti)
    ensures !OpenWrite(s, jti)
  {
  }

  /** A key that is gone while no request stands between its TTL and its SETEX is gone for good. */
  lemma {:induction false} NoResurrection(c: Settings, s: State, events: seq<Event>, jti: Jti)
    requires s.commits != [] && Dead(s, jti) && !OpenWrite(s, jti)
    ensures Dead(Run(c, s, events), jti) && !OpenWrite(Run(c, s, events), jti)
    decreases |events|
  {
    hide Dead, OpenWrite, Apply;
    if events != [] {
      NoResurrection(c, s, events[..|events| - 1], jti);
      DeadStep(c, Run(c, s, events[..|events| - 1]), events[|events| - 1], jti);
    }
  }

  lemma SetExStores(c: Settings, s: State, id: nat, jti: Jti)
    requires s.commits != [] && WritingTo(s, id, jti)
    ensures var s', r := Apply(c, s, SetEx(id)), s.requests[id];
            jti in s'.store && s'.store[jti] == Entry(InHand(c, r.cached, r.trail), s.now + r.ttl)
  {
    hide InHand, UserOf;
  }

  /** A key that is gone can come back if and only if some request read its TTL while it was
      there and has not written yet. */
  lemma {:induction false} ReturnsExactlyWhen(c: Settings, s: State, jti: Jti)
    requires s.commits != [] && Dead(s, jti)
    ensures (exists events :: jti in Run(c, s, events).store) <==> OpenWrite(s, jti)
  {
    hide Apply, Run;
    if OpenWrite(s, jti) {
      var id :| WritingTo(s, id, jti);
      SetExStores(c, s, id, jti);
      RunSnoc(c, s, [], SetEx(id));
      RunEmpty(c, s);
      assert jti in Run(c, s, [] + [SetEx(id)]).store;
    } else {
      forall events ensures jti !in Run(c, s, events).store {
        NoResurrection(c, s, events, jti);
      }
    }
  }

  lemma RunEmpty(c: Settings, s: State)
    requires s.commits != []
    ensures Run(c, s, []) == s
  {
  }

  /** Step n of the run is where request id, now standing as r, read the TTL: the key was in the
      store then. */
  ghost predicate ReadAtStep(c: Settings, s: State, past: seq<Event>, n: nat, id: nat, r: Request)
    requires s.commits != [] && r.Writing?
  {
    n < |past| && past[n] == ReadTtl(id)
    && (var then' := Run(c, s, past[..n]);
        r.jti in then'.store && r.readAt == then'.now && r.readAt + r.ttl == then'.store[r.jti].deadline)
  }

  lemma WritingComesFromReadTtl(c: Settings, s: State, e: Event, id: nat)
    requires s.commits != [] && id in Apply(c, s, e).requests && Apply(c, s, e).requests[id].Writing?
    ensures var r := Apply(c, s, e).requests[id];
            || (id in s.requests && s.requests[id] == r)
            || (e == ReadTtl(id) && r.jti in s.store && r.readAt == s.now && r.readAt + r.ttl == s.store[r.jti].deadline)
  {
    hide UserOf, InHand, LoginData;
  }

  lemma {:induction false} OpenWriteSawTheKey(c: Settings, s: State, past: seq<Event>, id: nat)
    requires Init(c, s)
    requires id in Run(c, s, past).requests && Run(c, s, past).requests[id].Writing?
    ensures exists n: nat :: ReadAtStep(c, s, past, n, id, Run(c, s, past).requests[id])
    decreases |past|
  {
    hide Apply;
    var m := |past| - 1;
    var before, r := Run(c, s, past[..m]), Run(c, s, past).requests[id];
    WritingComesFromReadTtl(c, before, past[m], id);
    if id in before.requests && before.requests[id] == r {
      OpenWriteSawTheKey(c, s, past[..m], id);
      var n: nat :| ReadAtStep(c, s, past[..m], n, id, r);
      assert past[..m][..n] == past[..n];
      assert ReadAtStep(c, s, past, n, id, r);
    } else {
      assert ReadAtStep(c, s, past, m, id, r);
    }
  }

  /** Over every run: a session that is gone can come back if and only if it left the store
      between the two store calls of one request that is still under way. */
  lemma {:induction false} ResurrectionExactlyWhen(c: Settings, s: State, past: seq<Event>, jti: Jti)
    requires Init(c, s) && Dead(Run(c, s, past), jti)
    ensures var s' := Run(c, s, past);
            (exists future :: jti in Run(c, s', future).store) <==>
            (exists id, n: nat :: WritingTo(s', id, jti) && ReadAtStep(c, s, past, n, id, s'.requests[id]))
  {
    hide Run, ReadAtStep;
    var s' := Run(c, s, past);
    ReturnsExactlyWhen(c, s', jti);
    if OpenWrite(s', jti) {
      var id :| WritingTo(s', id, jti);
      OpenWriteSawTheKey(c, s, past, id);
    }
  }

  /** Over every run: the write-back gives the key the deadline it had when the TTL was read,
      plus exactly the time since. */
  lemma {:induction false} WriteBackMovesTheDeadline(c: Settings, s: State, past: seq<Event>, id: nat)
    requires Init(c, s)
    requires id in Run(c, s, past).requests && Run(c, s, past).requests[id].Writing?
    ensures var s' := Run(c, s, past);
            var r, s'' := s'.requests[id], Apply(c, s', SetEx(id));
            exists n: nat ::
              ReadAtStep(c, s, past, n, id, r) && r.jti in s''.store
              && (var then' := Run(c, s, past[..n]);
                  s''.store[r.jti].deadline == then'.store[r.jti].deadline + (s'.now - then'.now))
  {
    hide Run, Apply;
    var s' := Run(c, s, past);
    var r := s'.requests[id];
    OpenWriteSawTheKey(c, s, past, id);
    var n: nat :| ReadAtStep(c, s, past, n, id, r);
    SetExStores(c, s', id, r.jti);
  }

  /** How long this event's write-back of the key waited after its TTL was read. */
  function Gap(s: State, e: Event, jti: Jti): int {
    if e.SetEx? && WritingTo(s, e.id, jti) then s.now - s.requests[e.id].readAt else 0
  }

  /** The time that write-backs of the key have spent between their two calls. */
  function WriteGaps(c: Settings, s: State, events: seq<Event>, jti: Jti): int
    requires s.commits != []
    decreases |events|
  {
    if events == [] then 0
    else
      var m := |events| - 1;
      WriteGaps(c, s, events[..m], jti) + Gap(Run(c, s, events[..m]), events[m], jti)
  }

  /** Wherever the deadline stands or is about to be put, it is at most g beyond d. */
  ghost predicate Bounded(s: State, jti: Jti, d: int, g: int) {
    && 0 <= g && jti in s.issued && jti !in s.pending
    && (jti in s.store ==> d <= s.store[jti].deadline <= d + g)
    && (forall id :: WritingTo(s, id, jti) ==>
          s.requests[id].readAt <= s.now && d <= s.requests[id].readAt + s.requests[id].ttl <= d + g)
  }

  lemma BoundedStep(c: Settings, s: State, e: Event, jti: Jti, d: int, g: int)
    requires s.commits != [] && Bounded(s, jti, d, g)
    ensures Bounded(Apply(c, s, e), jti, d, g + Gap(s, e, jti))
  {
    hide RequestStep, LoginData;
    if IsRequestStep(e) {
      ApplyRequest(c, s, e);
      if e.id in s.requests {
        RequestKeepsBounded(c, s, e, jti, d, g);
      }
    }
  }

  lemma RequestKeepsBounded(c: Settings, s: State, e: Event, jti: Jti, d: int, g: int)
    requires s.commits != [] && Bounded(s, jti, d, g) && IsRequestStep(e) && e.id in s.requests
    ensures Bounded(RequestStep(c, s, e), jti, d, g + Gap(s, e, jti))
  {
    hide UserOf, InHand;
  }

  lemma {:induction false} RunKeepsBounded(c: Settings, s: State, events: seq<Event>, jti: Jti, d: int)
    requires s.commits != [] && Bounded(s, jti, d, 0)
    ensures Bounded(Run(c, s, events), jti, d, WriteGaps(c, s, events, jti))
    decreases |events|
  {
    hide Apply, Bounded, Gap;
    if events != [] {
      var m := |events| - 1;
      RunKeepsBounded(c, s, events[..m], jti, d);
      BoundedStep(c, Run(c, s, events[..m]), events[m], jti, d, WriteGaps(c, s, events[..m], jti));
    }
  }

  /** A session's deadline never moves earlier, and later by no more than its write-backs spent
      between their two calls, even if its key went away and came back; so it is gone once the
      clock is past that. When they spent no time there, the deadline is fixed. */
  lemma {:induction false} DeadlineIsFixed(c: Settings, s: State, events: seq<Event>, jti: Jti)
    requires Inv(c, s) && jti in s.store && !OpenWrite(s, jti)
    ensures var s', d, gaps := Run(c, s, events), s.store[jti].deadline, WriteGaps(c, s, events, jti);
            && gaps >= 0
            && (jti in s'.store ==> d <= s'.store[jti].deadline <= d + gaps)
            && (s'.now >= d + gaps ==> Dead(s', jti))
  {
    hide Run, DataOk, RequestOk, LoginOk, OpenWrite;
    forall id ensures !WritingTo(s, id, jti) {
      NotWriting(s, id, jti);
    }
    RunKeepsBounded(c, s, events, jti, s.store[jti].deadline);
    RunKeepsInv(c, s, events);
  }

  lemma KeyStays(c: Settings, s: State, e: Event, jti: Jti)
    requires s.commits != [] && jti in s.store && jti !in s.pending && e != Logout(jti)
    requires Apply(c, s, e).now < s.store[jti].deadline
    ensures jti in Apply(c, s, e).store
  {
    hide UserOf, InHand, LoginData;
  }

  lemma TimeGoesOn(c: Settings, s: State, e: Event)
    requires s.commits != []
    ensures Apply(c, s, e).now >= s.now
  {
    hide UserOf, InHand, LoginData;
  }

  /** A session that nobody logs out is there until its deadline, whatever else happens. */
  lemma {:induction false} LivesUntilDeadline(c: Settings, s: State, events: seq<Event>, jti: Jti)
    requires Inv(c, s) && jti in s.store && !OpenWrite(s, jti) && Logout(jti) !in events
    ensures Run(c, s, events).now < s.store[jti].deadline ==> jti in Run(c, s, events).store
    decreases |events|
  {
    hide Apply, DataOk, RequestOk, LoginOk, OpenWrite, InOrder;
    if events != [] {
      var m := |events| - 1;
      var before := Run(c, s, events[..m]);
      assert Logout(jti) !in events[..m] && events[m] != Logout(jti);
      LivesUntilDeadline(c, s, events[..m], jti);
      TimeGoesOn(c, before, events[m]);
      DeadlineIsFixed(c, s, events[..m], jti);
      if Run(c, s, events).now < s.store[jti].deadline {
        RunKeepsInv(c, s, events[..m]);
        KeyStays(c, before, events[m], jti);
      }
    }
  }

  /** A session lives one TTL from its login, and beyond that no longer than its write-backs
      spent between their two calls. */
  lemma {:induction false} SessionLivesOneTtl(c: Settings, s: State, jti: Jti, events: seq<Event>)
    requires Inv(c, s) && jti in s.pending && LoginData(c, s.pending[jti]).Some? && c.ttl > 0
    ensures var stored := Apply(c, s, LoginStore(jti));
            && jti in stored.store && stored.store[jti] == Entry(LoginData(c, s.pending[jti]).value, s.now + c.ttl)
            && (Run(c, stored, events).now >= s.now + c.ttl + WriteGaps(c, stored, events, jti) ==>
                  Dead(Run(c, stored, events), jti))
  {
    hide Run, Dead, DataOk, RequestOk, RequestStep, LoginData, LoginOk;
    var stored := Apply(c, s, LoginStore(jti));
    StepKeepsInv(c, s, LoginStore(jti));
    assert !OpenWrite(stored, jti);
    DeadlineIsFixed(c, stored, events, jti);
  }

  /** A logout is final, so that every later lookup of the session is rejected, if and only if no
      request stood between the session's TTL and its SETEX. */
  lemma {:induction false} LogoutIsFinalExactlyWhen(c: Settings, s: State, jti: Jti)
    requires Inv(c, s) && jti in s.store
    ensures var out := Apply(c, s, Logout(jti));
            (forall events :: jti !in Run(c, out, events).store) <==> !OpenWrite(s, jti)
    ensures var out := Apply(c, s, Logout(jti));
            !OpenWrite(s, jti) ==> forall events, id ::
              (var s' := Run(c, out, events);
               id in s'.requests && s'.requests[id] == Arrived(jti) ==> Apply(c, s', Load(id)).requests[id] == Rejected)
  {
    hide Run, DataOk, RequestOk, LoginOk, OpenWrite;
    var out := Apply(c, s, Logout(jti));
    LogoutKeepsWrites(c, s, jti);
    ReturnsExactlyWhen(c, out, jti);
  }

  lemma LogoutKeepsWrites(c: Settings, s: State, jti: Jti)
    requires s.commits != []
    ensures OpenWrite(Apply(c, s, Logout(jti)), jti) <==> OpenWrite(s, jti)
  {
    var out := Apply(c, s, Logout(jti));
    assert forall id :: WritingTo(out, id, jti) <==> WritingTo(s, id, jti);
  }
}
