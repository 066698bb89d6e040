/**
 What every interleaving of the listener's handlers guarantees: the cap, the fate of each build, the
 return of reserved slots, and which bodies wait for the gate.
 */
module HttpRuns {
  import opened Prelude
  import opened HttpSessions

  /** Live sessions and reservations together never exceed the cap, and each reservation is held by one handler. */
  lemma CapacityHolds(maxSessions: int, events: seq<Event>, s: State)
    requires Run(maxSessions, events, s)
    ensures |s.sessions| + s.pending <= if maxSessions < 0 then 0 else maxSessions
    ensures s.pending == |Holders(s.inits)|
  {
    RunKeeps(maxSessions, events, s);
  }

  /**
   No build is lost: once its handler has returned it is in the map or has been disposed. While it
   may still be served it is not disposed, and neither `disposeSession` nor the handler disposes it twice.
   */
  lemma BuildsAccountedFor(maxSessions: int, events: seq<Event>, s: State, h: int)
    requires Run(maxSessions, events, s) && h in s.inits
    ensures s.inits[h].pc.Finished? ==> InMap(s, h) || s.inits[h].swept + s.inits[h].dropped > 0
    ensures InMap(s, h) ==> s.inits[h].swept == 0
    ensures s.inits[h].swept <= 1 && s.inits[h].dropped <= 1
    ensures s.inits[h].swept == 1 <==> s.inits[h].sid.Some? && !InMap(s, h)
    ensures s.inits[h].dropped > 0 ==> !InMap(s, h)
  {
    RunKeeps(maxSessions, events, s);
    assert InitOk(s, h);
  }

  /** Two sessions never share a build. */
  lemma SessionsIsolated(maxSessions: int, events: seq<Event>, s: State, a: int, b: int)
    requires Run(maxSessions, events, s) && a in s.sessions && b in s.sessions
    requires s.sessions[a].owner == s.sessions[b].owner
    ensures a == b
  {
    RunKeeps(maxSessions, events, s);
    assert s.inits[s.sessions[a].owner].sid == Some(a) && s.inits[s.sessions[b].owner].sid == Some(b);
  }

  ghost function CrashedInits(s: State): set<int> {
    set h | h in s.inits && s.inits[h].pc.Crashed?
  }

  /**
   When every initialize handler is over, the slots still reserved are exactly those of handlers the
   session factory threw out of. All capacity is back if, and only if, it never threw.
   */
  lemma SlotsReturnUnlessFactoryThrew(maxSessions: int, events: seq<Event>, s: State)
    requires Run(maxSessions, events, s)
    requires forall h :: h in s.inits ==> s.inits[h].pc.Finished? || s.inits[h].pc.Crashed?
    ensures s.pending == |CrashedInits(s)|
    ensures s.pending == 0 <==> forall h :: h in s.inits ==> !s.inits[h].pc.Crashed?
  {
    RunKeeps(maxSessions, events, s);
    forall h | h in s.inits ensures s.inits[h].holdsSlot <==> s.inits[h].pc.Crashed? {
      assert InitOk(s, h);
    }
    var crashed := CrashedInits(s);
    assert Holders(s.inits) == crashed;
    if crashed == {} {
      forall h | h in s.inits ensures !s.inits[h].pc.Crashed? {
        assert h !in crashed;
      }
    }
    if forall h :: h in s.inits ==> !s.inits[h].pc.Crashed? {
      assert crashed == {};
    }
  }

  /** The slot of a handler the factory threw out of is never released again. */
  lemma CrashIsForever(maxSessions: int, s: State, e: Event)
    requires Inv(maxSessions, s) && Enabled(s, e)
    ensures CrashedInits(s) <= CrashedInits(Next(maxSessions, s, e))
  {
    forall h | h in CrashedInits(s)
      ensures h in Next(maxSessions, s, e).inits && Next(maxSessions, s, e).inits[h].pc.Crashed?
    {
      RecordsPersist(maxSessions, s, e, h);
    }
  }

  /** So after as many throws as there are slots no initialize request is ever admitted again. */
  lemma {:induction false} ThrowsExhaustCapacity(maxSessions: int, s: State, events: seq<Event>, t: State)
    requires Inv(maxSessions, s) && Continues(maxSessions, s, events, t)
    requires |CrashedInits(s)| >= maxSessions
    ensures Inv(maxSessions, t) && |CrashedInits(t)| >= maxSessions
    ensures forall h, f :: Admit(maxSessions, t, h, f) == t
    decreases |events|
  {
    if events != [] {
      var n := |events| - 1;
      var u :| Continues(maxSessions, s, events[..n], u) && Enabled(u, events[n])
        && t == Next(maxSessions, u, events[n]);
      ThrowsExhaustCapacity(maxSessions, s, events[..n], u);
      InvariantKept(maxSessions, u, events[n]);
      CrashIsForever(maxSessions, u, events[n]);
      SubsetCardinality(CrashedInits(u), CrashedInits(t));
    }
    forall h | h in CrashedInits(t) ensures h in Holders(t.inits) {
      assert InitOk(t, h);
    }
    SubsetCardinality(CrashedInits(t), Holders(t.inits));
  }

  /** Some enabled events lead from `s` to `t`. */
  ghost predicate Continues(maxSessions: int, s: State, events: seq<Event>, t: State)
    decreases |events|
  {
    if events == [] then s == t
    else
      var n := |events| - 1;
      exists u :: Continues(maxSessions, s, events[..n], u) && Enabled(u, events[n])
        && t == Next(maxSessions, u, events[n])
  }

  /** What an event leaves of a record: crash, settled gate, session id and disposals. */
  predicate Persists(a: Init, b: Init) {
    && (a.pc.Crashed? ==> b.pc.Crashed?)
    && (!a.gate.Waiting? ==> b.gate == a.gate)
    && a.dropped <= b.dropped
    && (a.sid.Some? ==> b.sid == a.sid)
  }

  /** No step forgets a handler; a settled gate and a thrown factory stay what they are. */
  lemma {:induction false} RecordsPersist(maxSessions: int, s: State, e: Event, h: int)
    requires Inv(maxSessions, s) && Enabled(s, e) && h in s.inits
    ensures h in Next(maxSessions, s, e).inits && Persists(s.inits[h], Next(maxSessions, s, e).inits[h])
  {
    hide Inv, InitOk;
    match e
    case Sweep(cutoff, order) => StaleRecordsPersist(s, cutoff, order, h);
    case SessionInitialized(k, _, _) => RegisterPersists(maxSessions, s, e, h);
    case ConnectSettled(k, _) => AbortPersists(maxSessions, s, e, h);
    case HandleSettled(k, ok) =>
      if ok { HandledPersists(maxSessions, s, e, h); } else { AbortPersists(maxSessions, s, e, h); }
    case PrepareSettled(k, _) => PreparedPersists(maxSessions, s, e, h);
    case _ => hide Arrive, Read, Resume;
  }

  lemma RegisterPersists(maxSessions: int, s: State, e: Event, h: int)
    requires Inv(maxSessions, s) && Enabled(s, e) && h in s.inits && e.SessionInitialized?
    ensures h in Next(maxSessions, s, e).inits && Persists(s.inits[h], Next(maxSessions, s, e).inits[h])
  {
    InvParts(maxSessions, s);
    assert InitOk(s, e.h) && InitOk(s, h);
    hide Inv, Capacity, SessionsOwned, SidsDistinct, PostsKnown;
  }

  lemma AbortPersists(maxSessions: int, s: State, e: Event, h: int)
    requires Inv(maxSessions, s) && Enabled(s, e) && h in s.inits && (e.ConnectSettled? || (e.HandleSettled? && !e.ok))
    ensures h in Next(maxSessions, s, e).inits && Persists(s.inits[h], Next(maxSessions, s, e).inits[h])
  {
    InvParts(maxSessions, s);
    assert InitOk(s, e.h) && InitOk(s, h);
    hide Inv, Capacity, SessionsOwned, SidsDistinct, PostsKnown;
  }

  lemma HandledPersists(maxSessions: int, s: State, e: Event, h: int)
    requires Inv(maxSessions, s) && Enabled(s, e) && h in s.inits && e.HandleSettled? && e.ok
    ensures h in Next(maxSessions, s, e).inits && Persists(s.inits[h], Next(maxSessions, s, e).inits[h])
  {
    InvParts(maxSessions, s);
    assert InitOk(s, e.h) && InitOk(s, h);
    hide Inv, Capacity, SessionsOwned, SidsDistinct, PostsKnown;
  }

  lemma PreparedPersists(maxSessions: int, s: State, e: Event, h: int)
    requires Inv(maxSessions, s) && Enabled(s, e) && h in s.inits && e.PrepareSettled?
    ensures h in Next(maxSessions, s, e).inits && Persists(s.inits[h], Next(maxSessions, s, e).inits[h])
  {
    InvParts(maxSessions, s);
    assert InitOk(s, e.h) && InitOk(s, h);
    hide Inv, Capacity, SessionsOwned, SidsDistinct, PostsKnown;
  }

  lemma {:induction false} StaleRecordsPersist(s: State, cutoff: int, order: seq<int>, h: int)
    requires h in s.inits
    ensures var t := DisposeStale(s, cutoff, order);
            h in t.inits && t.inits[h] == s.inits[h].(swept := t.inits[h].swept)
    decreases |order|
  {
    if order != [] {
      StaleRecordsPersist(s, cutoff, order[..|order| - 1], h);
    }
  }

  // ---------------------------------------------------------------- the gate

  /**
   Every body handed to a transport is handed over by one of two steps. One with a request only when
   its gate settled, and then the gate is open and the very session it was posted to is still in the
   map; one without a request as soon as it is read, whatever the gate says.
   */
  lemma RequestsWaitForPrepare(maxSessions: int, events: seq<Event>, s: State, e: Event, d: Delivery)
    requires Run(maxSessions, events, s) && Enabled(s, e)
    requires Next(maxSessions, s, e).log == s.log + [d]
    ensures if HasRequest(d.body) then
              && e.GateSettled? && e.r == d.post && e.r in s.posts && s.posts[e.r] == Blocked(d.sid, d.owner, d.body)
              && d.sid in s.sessions && s.sessions[d.sid].owner == d.owner
              && d.owner in s.inits && s.inits[d.owner].gate.Open?
            else
              && e == BodyRead(d.post, d.body) && e.r in s.posts && s.posts[e.r] == Reading(d.sid, d.owner)
  {
    RunKeeps(maxSessions, events, s);
    LogGrowsOnlyBy(maxSessions, s, e);
    assert (s.log + [d])[|s.log|] == d;
    if e.GateSettled? {
      var p := s.posts[e.r];
      if p.sid in s.sessions {
        assert s.inits[s.sessions[p.sid].owner].sid == Some(p.sid) == s.inits[p.owner].sid;
      }
    }
  }

  lemma LogGrowsOnlyBy(maxSessions: int, s: State, e: Event)
    requires Enabled(s, e)
    ensures !e.BodyRead? && !e.GateSettled? ==> Next(maxSessions, s, e).log == s.log
  {
    if e.Sweep? { StaleKeepsLog(s, e.cutoff, e.order); }
  }

  lemma {:induction false} StaleKeepsLog(s: State, cutoff: int, order: seq<int>)
    ensures DisposeStale(s, cutoff, order).log == s.log
    decreases |order|
  {
    if order != [] { StaleKeepsLog(s, cutoff, order[..|order| - 1]); }
  }

  /** A request is held back only while the handler of its session is still initializing or preparing it. */
  lemma BlockedOnlyWhilePreparing(maxSessions: int, events: seq<Event>, s: State, r: int)
    requires Run(maxSessions, events, s) && r in s.posts && s.posts[r].Blocked?
    ensures s.posts[r].owner in s.inits
    ensures Enabled(s, GateSettled(r)) <==> s.inits[s.posts[r].owner].pc.Finished?
    ensures !Enabled(s, GateSettled(r)) ==>
              s.inits[s.posts[r].owner].pc.Handling? || s.inits[s.posts[r].owner].pc.Preparing?
  {
    RunKeeps(maxSessions, events, s);
    assert InitOk(s, s.posts[r].owner);
  }

  // ---------------------------------------------------------------- replies that prepare waits for

  /**
   Enabled events from `s` to `t` in which the handler `h` settles its `prepare` only once the post `r`
   no longer waits.
   */
  ghost predicate ContinuesUntilHanded(maxSessions: int, s: State, events: seq<Event>, t: State, h: int, r: int)
    decreases |events|
  {
    if events == [] then s == t
    else
      var n := |events| - 1;
      exists u ::
        && ContinuesUntilHanded(maxSessions, s, events[..n], u, h, r)
        && Enabled(u, events[n]) && t == Next(maxSessions, u, events[n])
        && (events[n].PrepareSettled? && events[n].h == h ==> r in u.posts && !u.posts[r].Blocked?)
  }

  ghost predicate Stuck(s: State, h: int, r: int) {
    h in s.inits && s.inits[h].pc.Preparing? && r in s.posts && s.posts[r].Blocked? && s.posts[r].owner == h
  }

  lemma StuckStays(maxSessions: int, s: State, e: Event, h: int, r: int)
    requires Inv(maxSessions, s) && Enabled(s, e) && Stuck(s, h, r) && !(e.PrepareSettled? && e.h == h)
    ensures Stuck(Next(maxSessions, s, e), h, r) && Next(maxSessions, s, e).posts[r] == s.posts[r]
  {
    InvParts(maxSessions, s);
    assert s.inits[h].gate.Waiting? by { assert InitOk(s, h); }
    hide Inv, Capacity, SessionsOwned, SidsDistinct, PostsKnown;
    PreparingStays(maxSessions, s, e, h);
    BlockedStays(maxSessions, s, e, r);
  }

  lemma PreparingStays(maxSessions: int, s: State, e: Event, h: int)
    requires Enabled(s, e) && h in s.inits && s.inits[h].pc.Preparing? && !(e.PrepareSettled? && e.h == h)
    ensures h in Next(maxSessions, s, e).inits && Next(maxSessions, s, e).inits[h].pc.Preparing?
  {
    hide Arrive, Read, Resume;
    match e
    case Sweep(cutoff, order) => StaleRecordsPersist(s, cutoff, order, h);
    case PostArrives(r, sid, now) => RequestsKeepInits(s, r, sid, now);
    case BodyRead(r, body) => BodiesKeepInits(s, r, body);
    case GateSettled(r) => GatesKeepInits(s, r);
    case _ =>
  }

  lemma RequestsKeepInits(s: State, r: int, sid: int, now: int)
    ensures Arrive(s, r, sid, now).inits == s.inits
  {
  }

  lemma BodiesKeepInits(s: State, r: int, body: Body)
    requires r in s.posts && AwaitsBody(s.posts[r])
    ensures Read(s, r, body).inits == s.inits
  {
  }

  lemma GatesKeepInits(s: State, r: int)
    requires r in s.posts && s.posts[r].Blocked? && s.posts[r].owner in s.inits
    ensures Resume(s, r).inits == s.inits
  {
  }

  /** A blocked post is touched by nothing before its gate has settled. */
  lemma BlockedStays(maxSessions: int, s: State, e: Event, r: int)
    requires Enabled(s, e) && r in s.posts && s.posts[r].Blocked?
    requires s.posts[r].owner in s.inits && s.inits[s.posts[r].owner].gate.Waiting?
    ensures r in Next(maxSessions, s, e).posts && Next(maxSessions, s, e).posts[r] == s.posts[r]
  {
    if e.Sweep? { StaleKeepsPosts(s, e.cutoff, e.order); }
  }

  lemma {:induction false} StaleKeepsPosts(s: State, cutoff: int, order: seq<int>)
    ensures DisposeStale(s, cutoff, order).posts == s.posts
    decreases |order|
  {
    if order != [] { StaleKeepsPosts(s, cutoff, order[..|order| - 1]); }
  }

  /** A post that waits for a `prepare` which waits for that post: neither ever goes on, whatever else happens. */
  lemma {:induction false} WaitingForEachOther(maxSessions: int, s: State, events: seq<Event>, t: State, h: int, r: int)
    requires Inv(maxSessions, s) && Stuck(s, h, r) && ContinuesUntilHanded(maxSessions, s, events, t, h, r)
    ensures Inv(maxSessions, t) && Stuck(t, h, r) && t.posts[r] == s.posts[r]
    decreases |events|
  {
    hide Inv, Enabled, Next;
    if events != [] {
      var n := |events| - 1;
      var u :|
        && ContinuesUntilHanded(maxSessions, s, events[..n], u, h, r)
        && Enabled(u, events[n]) && t == Next(maxSessions, u, events[n])
        && (events[n].PrepareSettled? && events[n].h == h ==> r in u.posts && !u.posts[r].Blocked?);
      WaitingForEachOther(maxSessions, s, events[..n], u, h, r);
      InvariantKept(maxSessions, u, events[n]);
      StuckStays(maxSessions, u, events[n], h, r);
    }
  }

  /** `prepare` can still settle, in some continuation in which it does so only after the post was handed over. */
  ghost predicate CanFinish(maxSessions: int, s: State, h: int, r: int) {
    exists events, t :: ContinuesUntilHanded(maxSessions, s, events, t, h, r) && h in t.inits && t.inits[h].pc.Finished?
  }

  /**
   While a session is being prepared, a client's reply is posted, and `prepare` settles only after the
   post that carries it. In any run, some continuation finishes the session exactly when no message of
   the reply's body is a request; batched with one, the reply and `prepare` wait for each other for ever.
   */
  lemma {:induction false} PrepareFinishesIffReplyUnbatched(maxSessions: int, events: seq<Event>, s: State, r: int,
                                                            body: Body)
    requires Run(maxSessions, events, s) && r in s.posts && s.posts[r].Reading?
    requires s.posts[r].owner in s.inits && s.inits[s.posts[r].owner].pc.Preparing?
    ensures CanFinish(maxSessions, Next(maxSessions, s, BodyRead(r, body)), s.posts[r].owner, r) <==> !HasRequest(body)
  {
    var h, t := s.posts[r].owner, Next(maxSessions, s, BodyRead(r, body));
    RunKeeps(maxSessions, events, s);
    InvariantKept(maxSessions, s, BodyRead(r, body));
    if HasRequest(body) {
      if later, u :| ContinuesUntilHanded(maxSessions, t, later, u, h, r) && h in u.inits && u.inits[h].pc.Finished? {
        WaitingForEachOther(maxSessions, t, later, u, h, r);
      }
    } else {
      SettlesNext(maxSessions, t, h, r);
    }
  }

  lemma SettlesNext(maxSessions: int, s: State, h: int, r: int)
    requires h in s.inits && s.inits[h].pc.Preparing? && r in s.posts && !s.posts[r].Blocked?
    ensures CanFinish(maxSessions, s, h, r)
  {
    var e := PrepareSettled(h, true);
    var t := Next(maxSessions, s, e);
    assert ContinuesUntilHanded(maxSessions, s, [], s, h, r);
    assert [e][..0] == [];
    assert ContinuesUntilHanded(maxSessions, s, [e], t, h, r);
  }

  // ---------------------------------------------------------------- runs that show it

  lemma RunOn(maxSessions: int, events: seq<Event>, s: State, e: Event)
    requires Run(maxSessions, events, s) && Enabled(s, e)
    ensures Run(maxSessions, events + [e], Next(maxSessions, s, e))
  {
    assert (events + [e])[..|events|] == events;
  }

  function Reply(): Message { Object(false, true) }

  function Request(): Message { Object(true, true) }

  /** A session is initialized and being prepared when the client posts its reply together with a request. */
  function BatchedReply(): seq<Event> {
    [Begin(0, true), ConnectSettled(0, true), SessionInitialized(0, 7, 0), HandleSettled(0, true),
     PostArrives(1, 7, 0), BodyRead(1, Batch([Reply(), Request()]))]
  }

  lemma BatchedReplyIsStuck() returns (s: State)
    ensures Run(1, BatchedReply(), s) && Stuck(s, 0, 1) && !CanFinish(1, s, 0, 1)
  {
    var es := BatchedReply();
    s := EMPTY;
    for n := 0 to 6
      invariant Run(1, es[..n], s) && s == Stages(n)
    {
      StageStep(n);
      RunOn(1, es[..n], s, es[n]);
      TakeOneMore(es, n);
      s := Next(1, s, es[n]);
    }
    TakeAll(es);
    RunKeeps(1, es, s);
    if later, u :| ContinuesUntilHanded(1, s, later, u, 0, 1) && 0 in u.inits && u.inits[0].pc.Finished? {
      WaitingForEachOther(1, s, later, u, 0, 1);
    }
  }

  /** The state after the first `n` of those events. */
  function Stages(n: nat): State
    requires n <= 6
  {
    var i := Init(Connecting, None, true, Waiting, 0, 0);
    var held := Init(Handling, Some(7), false, Waiting, 0, 0);
    var sessions := map[7 := Session(0, 0)];
    if n == 0 then EMPTY
    else if n == 1 then State(map[], 1, map[0 := i], map[], [])
    else if n == 2 then State(map[], 1, map[0 := i.(pc := Handling)], map[], [])
    else if n == 3 then State(sessions, 0, map[0 := held], map[], [])
    else if n == 4 then State(sessions, 0, map[0 := held.(pc := Preparing)], map[], [])
    else if n == 5 then State(sessions, 0, map[0 := held.(pc := Preparing)], map[1 := Reading(7, 0)], [])
    else State(sessions, 0, map[0 := held.(pc := Preparing)], map[1 := Blocked(7, 0, Batch([Reply(), Request()]))], [])
  }

  lemma StageStep(n: nat)
    requires n < 6
    ensures Enabled(Stages(n), BatchedReply()[n]) && Next(1, Stages(n), BatchedReply()[n]) == Stages(n + 1)
  {
    var s, t := Stages(n), Stages(n + 1);
    if n == 0 {
      assert Next(1, s, Begin(0, true)).inits == t.inits;
    } else if n == 1 {
      assert Next(1, s, ConnectSettled(0, true)).inits == t.inits;
    } else if n == 2 {
      var u := Next(1, s, SessionInitialized(0, 7, 0));
      assert u.inits == t.inits && u.sessions == t.sessions;
    } else if n == 3 {
      assert Next(1, s, HandleSettled(0, true)).inits == t.inits;
    } else if n == 4 {
      var u := Next(1, s, PostArrives(1, 7, 0));
      assert u.posts == t.posts && u.sessions == t.sessions;
    } else {
      LastStage();
    }
  }

  lemma LastStage()
    ensures Enabled(Stages(5), BatchedReply()[5]) && Next(1, Stages(5), BatchedReply()[5]) == Stages(6)
  {
    var body := Batch([Reply(), Request()]);
    var m := Request();
    assert Messages(body)[1] == m && m in Messages(body) && IsRequest(m);
    assert Next(1, Stages(5), BodyRead(1, body)).posts == Stages(6).posts;
  }

  /** As many initializes whose factory throws as there are slots: a run after which none is ever admitted again. */
  lemma {:induction false} ThrowingRun(maxSessions: nat, n: nat) returns (events: seq<Event>, s: State)
    requires n <= maxSessions
    ensures Run(maxSessions, events, s) && |events| == n && s.pending == n && |CrashedInits(s)| == n
    ensures s.sessions == map[] && forall h :: h in s.inits <==> 0 <= h < n
    decreases n
  {
    if n == 0 {
      events, s := [], EMPTY;
      assert CrashedInits(s) == {};
    } else {
      hide Next, CrashedInits, Enabled;
      var before, t := ThrowingRun(maxSessions, n - 1);
      assert n - 1 !in t.inits;
      var e := Begin(n - 1, false);
      OneMoreThrow(maxSessions, t, n - 1);
      RunOn(maxSessions, before, t, e);
      events, s := before + [e], Next(maxSessions, t, e);
    }
  }

  lemma OneMoreThrow(maxSessions: nat, s: State, h: int)
    requires s.sessions == map[] && s.pending < maxSessions && h !in s.inits
    ensures Enabled(s, Begin(h, false))
    ensures var t := Next(maxSessions, s, Begin(h, false));
            && t.sessions == map[] && t.pending == s.pending + 1 && t.inits.Keys == s.inits.Keys + {h}
            && |CrashedInits(t)| == |CrashedInits(s)| + 1
  {
    var t := Admit(maxSessions, s, h, false);
    assert |s.sessions| == 0;
    assert t == s.(pending := s.pending + 1, inits := s.inits[h := Init(Crashed, None, true, Waiting, 0, 0)]);
    hide CrashedInits;
    CrashedMore(s, t, h);
  }

  lemma CrashedMore(s: State, t: State, h: int)
    requires h !in s.inits && t.inits == s.inits[h := Init(Crashed, None, true, Waiting, 0, 0)]
    ensures |CrashedInits(t)| == |CrashedInits(s)| + 1
  {
    var before, after := CrashedInits(s), CrashedInits(t);
    forall x ensures x in after <==> x in before || x == h {
      assert x in after <==> x in t.inits && t.inits[x].pc.Crashed?;
    }
    assert after == before + {h} && h !in before;
  }

  lemma ThrowsCloseTheListener(maxSessions: nat) returns (events: seq<Event>, s: State)
    ensures Run(maxSessions, events, s) && |events| == maxSessions
    ensures forall later, t, h, f :: Continues(maxSessions, s, later, t) ==> Admit(maxSessions, t, h, f) == t
  {
    events, s := ThrowingRun(maxSessions, maxSessions);
    RunKeeps(maxSessions, events, s);
    forall later, t, h, f | Continues(maxSessions, s, later, t) ensures Admit(maxSessions, t, h, f) == t {
      ThrowsExhaustCapacity(maxSessions, s, later, t);
    }
  }
}
