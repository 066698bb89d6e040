/**
 What the listener does for a client: how each post is answered, that an accepted one is handed over
 exactly once, when a gate opens, and what a session survives.
 */
module HttpAnswers {
  import opened Prelude
  import opened HttpSessions
  import opened HttpRuns

  // ---------------------------------------------------------------- answers and deliveries

  /** A post is accepted for the session it names, or for none. */
  lemma PostFindsItsSession(maxSessions: int, events: seq<Event>, s: State, r: int, sid: int, now: int)
    requires Run(maxSessions, events, s) && Enabled(s, PostArrives(r, sid, now))
    ensures var t := Next(maxSessions, s, PostArrives(r, sid, now));
            && t.log == s.log && r in t.posts
            && t.posts[r] == if sid in s.sessions then Reading(sid, s.sessions[sid].owner) else Stray
  {
    hide Run;
  }

  /**
   Once read, a body for no session is refused with 400 and one without a request is handed over; one
   with a request waits.
   */
  lemma BodyIsAnswered(maxSessions: int, events: seq<Event>, s: State, r: int, body: Body)
    requires Run(maxSessions, events, s) && Enabled(s, BodyRead(r, body))
    ensures var t, p := Next(maxSessions, s, BodyRead(r, body)), s.posts[r];
            && r in t.posts
            && if p.Stray? then t.posts[r] == Answered(400) && t.log == s.log
               else if exists m :: m in Messages(body) && m.Object? && m.hasMethod && m.hasId
               then t.posts[r] == Blocked(p.sid, p.owner, body) && t.log == s.log
               else t.posts[r] == Answered(200) && t.log == s.log + [Delivery(r, p.sid, p.owner, body)]
  {
    assert HasRequest(body) <==> exists m :: m in Messages(body) && m.Object? && m.hasMethod && m.hasId;
    hide Run, HasRequest, Messages;
  }

  /** A body over the limit is refused with 413, whoever it is for. */
  lemma LongBodyIsRefused(maxSessions: int, events: seq<Event>, s: State, r: int)
    requires Run(maxSessions, events, s) && Enabled(s, BodyTooLarge(r))
    ensures Next(maxSessions, s, BodyTooLarge(r)) == s.(posts := s.posts[r := Answered(413)])
  {
    hide Run;
  }

  /**
   When the gate of a waiting post has settled, its body is handed to the build that the gate belongs to
   if the gate is open and the session is still in the map, and to no one otherwise: a failed gate
   answers 503, a vanished session 404.
   */
  lemma GateAnswers(maxSessions: int, events: seq<Event>, s: State, r: int)
    requires Run(maxSessions, events, s) && Enabled(s, GateSettled(r))
    ensures var t, p := Next(maxSessions, s, GateSettled(r)), s.posts[r];
            var open := s.inits[p.owner].gate.Open?;
            && t.log == (if open && p.sid in s.sessions then s.log + [Delivery(r, p.sid, p.owner, p.body)] else s.log)
            && r in t.posts && t.posts[r] == Answered(if !open then 503 else if p.sid in s.sessions then 200 else 404)
  {
    RunKeeps(maxSessions, events, s);
    var p := s.posts[r];
    if p.sid in s.sessions {
      assert s.inits[s.sessions[p.sid].owner].sid == Some(p.sid) == s.inits[p.owner].sid;
    }
  }

  /** The entries of the log are the accepted posts, one each, with the body each post brought. */
  ghost predicate Handed(events: seq<Event>, s: State) {
    && (forall k :: 0 <= k < |s.log| ==> HandedAt(events, s, k))
    && (forall j, k :: 0 <= j < k < |s.log| ==> s.log[j].post != s.log[k].post)
    && (forall r :: r in s.posts && s.posts[r] == Answered(200) ==> InLog(s, r))
    && (forall r :: r in s.posts && s.posts[r].Blocked? ==> BodyRead(r, s.posts[r].body) in events)
  }

  ghost predicate HandedAt(events: seq<Event>, s: State, k: nat)
    requires k < |s.log|
  {
    var d := s.log[k];
    d.post in s.posts && s.posts[d.post] == Answered(200) && BodyRead(d.post, d.body) in events
  }

  ghost predicate InLog(s: State, r: int) {
    exists k :: 0 <= k < |s.log| && s.log[k].post == r
  }

  /** Only the post the event is about changes, and the log grows with its answer 200 alone. */
  ghost predicate PostStep(s: State, e: Event, t: State, r: int) {
    && r in t.posts && t.posts == s.posts[r := t.posts[r]] && (r in s.posts ==> !s.posts[r].Answered?)
    && (t.posts[r] == Answered(200) <==> |t.log| == |s.log| + 1)
    && (if t.posts[r] == Answered(200)
        then t.log == s.log + [t.log[|s.log|]] && t.log[|s.log|].post == r
             && (e == BodyRead(r, t.log[|s.log|].body)
                 || (r in s.posts && s.posts[r].Blocked? && s.posts[r].body == t.log[|s.log|].body))
        else t.log == s.log)
    && (t.posts[r].Blocked? ==> e == BodyRead(r, t.posts[r].body))
  }

  lemma HandedOneMore(events: seq<Event>, s: State, e: Event, t: State, r: int)
    requires Handed(events, s) && PostStep(s, e, t, r)
    ensures Handed(events + [e], t)
  {
    forall k | 0 <= k < |t.log| ensures HandedAt(events + [e], t, k) {
      if k < |s.log| { assert HandedAt(events, s, k) && t.log[k] == s.log[k]; }
    }
    forall j, k | 0 <= j < k < |t.log| ensures t.log[j].post != t.log[k].post {
      assert HandedAt(events, s, j) && t.log[j] == s.log[j];
      if k < |s.log| { assert t.log[k] == s.log[k]; }
    }
    forall q | q in t.posts && t.posts[q] == Answered(200) ensures InLog(t, q) {
      if q == r {
        assert t.log[|s.log|].post == r;
      } else {
        var k :| 0 <= k < |s.log| && s.log[k].post == q;
        assert t.log[k] == s.log[k];
      }
    }
  }

  lemma HandedStays(events: seq<Event>, s: State, e: Event, t: State)
    requires Handed(events, s) && t.posts == s.posts && t.log == s.log
    ensures Handed(events + [e], t)
  {
    forall k | 0 <= k < |t.log| ensures HandedAt(events + [e], t, k) { assert HandedAt(events, s, k); }
    forall q | q in t.posts && t.posts[q] == Answered(200) ensures InLog(t, q) {
      var k :| 0 <= k < |s.log| && s.log[k].post == q;
      assert t.log[k].post == q;
    }
  }

  /** Which post an event is about, if any. */
  function PostOf(e: Event): Option<int> {
    match e
    case PostArrives(r, _, _) => Some(r)
    case BodyTooLarge(r) => Some(r)
    case BodyRead(r, _) => Some(r)
    case GateSettled(r) => Some(r)
    case _ => None
  }

  lemma OnePostSteps(maxSessions: int, s: State, e: Event)
    requires Enabled(s, e) && PostOf(e).Some?
    ensures PostStep(s, e, Next(maxSessions, s, e), PostOf(e).value)
  {
  }

  lemma OthersKeepPosts(maxSessions: int, s: State, e: Event)
    requires Enabled(s, e) && PostOf(e).None?
    ensures Next(maxSessions, s, e).posts == s.posts && Next(maxSessions, s, e).log == s.log
  {
    if e.Sweep? {
      StaleKeepsPosts(s, e.cutoff, e.order);
      StaleKeepsLog(s, e.cutoff, e.order);
    }
  }

  /**
   Conservation of posts in every run: each post answered 200 has the body it brought in the log, exactly
   once, and nothing else is ever handed to a transport.
   */
  lemma {:induction false} AcceptedIsHandedOnce(maxSessions: int, events: seq<Event>, s: State)
    requires Run(maxSessions, events, s)
    ensures Handed(events, s)
    decreases |events|
  {
    hide Next, Enabled, Handed, PostStep;
    if events == [] {
      NothingHanded();
    } else {
      var n := |events| - 1;
      var t :| Run(maxSessions, events[..n], t) && Enabled(t, events[n]) && s == Next(maxSessions, t, events[n]);
      AcceptedIsHandedOnce(maxSessions, events[..n], t);
      assert events == events[..n] + [events[n]];
      if PostOf(events[n]).Some? {
        OnePostSteps(maxSessions, t, events[n]);
        HandedOneMore(events[..n], t, events[n], s, PostOf(events[n]).value);
      } else {
        OthersKeepPosts(maxSessions, t, events[n]);
        HandedStays(events[..n], t, events[n], s);
      }
    }
  }

  lemma NothingHanded()
    ensures Handed([], EMPTY)
  {
  }

  // ---------------------------------------------------------------- gates

  /** An initialize is admitted exactly when sessions and reservations leave room, and holds a slot at once. */
  lemma AdmittedIffRoom(maxSessions: int, s: State, h: int, factoryReturns: bool)
    requires Enabled(s, Begin(h, factoryReturns))
    ensures var t := Next(maxSessions, s, Begin(h, factoryReturns));
            && (h in t.inits <==> |s.sessions| + s.pending < maxSessions)
            && (h in t.inits ==>
                  && t.pending == s.pending + 1 && t.inits[h].holdsSlot
                  && (t.inits[h].pc.Crashed? <==> !factoryReturns))
  {
  }

  /** What the run has told about a handler: which session it got, and whether `prepare` succeeded. */
  ghost predicate HistoryTold(events: seq<Event>, s: State, h: int)
    requires h in s.inits
  {
    && (s.inits[h].gate.Open? <==> PrepareSettled(h, true) in events)
    && (forall sid :: s.inits[h].sid == Some(sid) <==> exists now :: SessionInitialized(h, sid, now) in events)
  }

  /** What one event tells about a handler. */
  ghost predicate ToldByEvent(s: State, e: Event, t: State, h: int)
    requires h in s.inits && h in t.inits
  {
    && (t.inits[h].gate.Open? <==> s.inits[h].gate.Open? || e == PrepareSettled(h, true))
    && (forall sid :: t.inits[h].sid == Some(sid) <==>
                      s.inits[h].sid == Some(sid) || (e.SessionInitialized? && e.h == h && e.sid == sid))
  }

  lemma HandlerStep(maxSessions: int, s: State, e: Event, h: int)
    requires Inv(maxSessions, s) && Enabled(s, e) && h in s.inits
    ensures h in Next(maxSessions, s, e).inits && ToldByEvent(s, e, Next(maxSessions, s, e), h)
  {
    assert InitOk(s, h);
    hide Inv, InitOk;
    match e
    case Sweep(cutoff, order) => StaleRecordsPersist(s, cutoff, order, h);
    case PostArrives(r, sid, now) => RequestsKeepInits(s, r, sid, now);
    case BodyRead(r, body) => BodiesKeepInits(s, r, body);
    case GateSettled(r) => GatesKeepInits(s, r);
    case ConnectSettled(k, ok) => CallStep(maxSessions, s, e, h);
    case HandleSettled(k, ok) => CallStep(maxSessions, s, e, h);
    case PrepareSettled(k, ok) => PrepareStep(maxSessions, s, e, h);
    case _ => hide Arrive, Read, Resume;
  }

  lemma CallStep(maxSessions: int, s: State, e: Event, h: int)
    requires Inv(maxSessions, s) && Enabled(s, e) && h in s.inits && (e.ConnectSettled? || e.HandleSettled?)
    ensures h in Next(maxSessions, s, e).inits && ToldByEvent(s, e, Next(maxSessions, s, e), h)
  {
    InvParts(maxSessions, s);
    assert InitOk(s, e.h);
    hide Inv, Capacity, SessionsOwned, SidsDistinct, PostsKnown;
    if e.ok && e.HandleSettled? {
      HandledReplaces(s, e.h);
      hide Handled;
    } else if !e.ok {
      AbortReplaces(s, e.h);
      hide Abort;
    }
  }

  lemma PrepareStep(maxSessions: int, s: State, e: Event, h: int)
    requires Inv(maxSessions, s) && Enabled(s, e) && h in s.inits && e.PrepareSettled?
    ensures h in Next(maxSessions, s, e).inits && ToldByEvent(s, e, Next(maxSessions, s, e), h)
  {
    InvParts(maxSessions, s);
    assert InitOk(s, e.h);
    hide Inv, Capacity, SessionsOwned, SidsDistinct, PostsKnown;
  }

  lemma HistoryOneMore(events: seq<Event>, s: State, e: Event, t: State, h: int)
    requires h in s.inits && h in t.inits && HistoryTold(events, s, h) && ToldByEvent(s, e, t, h)
    ensures HistoryTold(events + [e], t, h)
  {
    forall sid
      ensures t.inits[h].sid == Some(sid) <==> exists now :: SessionInitialized(h, sid, now) in events + [e]
    {
      if e.SessionInitialized? && e.h == h && e.sid == sid { assert SessionInitialized(h, sid, e.now) in events + [e]; }
      if now :| SessionInitialized(h, sid, now) in events { assert SessionInitialized(h, sid, now) in events + [e]; }
    }
  }

  /** No event about a handler comes before the one that creates it. */
  lemma {:induction false} NoHistoryBefore(maxSessions: int, events: seq<Event>, s: State, h: int)
    requires Run(maxSessions, events, s) && h !in s.inits
    ensures PrepareSettled(h, true) !in events
    ensures forall sid, now :: SessionInitialized(h, sid, now) !in events
    decreases |events|
  {
    if events != [] {
      hide Next;
      var n := |events| - 1;
      var t :| Run(maxSessions, events[..n], t) && Enabled(t, events[n]) && s == Next(maxSessions, t, events[n]);
      RunKeeps(maxSessions, events[..n], t);
      if h in t.inits { RecordsPersist(maxSessions, t, events[n], h); }
      hide Inv;
      NoHistoryBefore(maxSessions, events[..n], t, h);
      assert events == events[..n] + [events[n]];
    }
  }

  /** A handler appears with its gate waiting and without a session. */
  lemma NewHandler(maxSessions: int, s: State, e: Event, h: int)
    requires Enabled(s, e) && h !in s.inits && h in Next(maxSessions, s, e).inits
    ensures e.Begin? && e.h == h
    ensures Next(maxSessions, s, e).inits[h].gate.Waiting? && Next(maxSessions, s, e).inits[h].sid.None?
  {
    match e
    case Sweep(cutoff, order) => StaleAddsNone(s, cutoff, order, h);
    case PostArrives(r, sid, now) => RequestsKeepInits(s, r, sid, now);
    case BodyRead(r, body) => BodiesKeepInits(s, r, body);
    case GateSettled(r) => GatesKeepInits(s, r);
    case _ => hide Arrive, Read, Resume;
  }

  lemma {:induction false} StaleAddsNone(s: State, cutoff: int, order: seq<int>, h: int)
    requires h !in s.inits
    ensures h !in DisposeStale(s, cutoff, order).inits
    decreases |order|
  {
    if order != [] { StaleAddsNone(s, cutoff, order[..|order| - 1], h); }
  }

  /**
   In every run the gate of a handler is open exactly if its `prepare` succeeded, and its session is
   the one the transport reported for it.
   */
  lemma {:induction false} GatesTellHistory(maxSessions: int, events: seq<Event>, s: State, h: int)
    requires Run(maxSessions, events, s) && h in s.inits
    ensures HistoryTold(events, s, h)
    decreases |events|
  {
    hide Next, Inv, HistoryTold, ToldByEvent, Enabled;
    var n := |events| - 1;
    var t :| Run(maxSessions, events[..n], t) && Enabled(t, events[n]) && s == Next(maxSessions, t, events[n]);
    assert events == events[..n] + [events[n]];
    RunKeeps(maxSessions, events[..n], t);
    if h in t.inits {
      GatesTellHistory(maxSessions, events[..n], t, h);
      HandlerStep(maxSessions, t, events[n], h);
      HistoryOneMore(events[..n], t, events[n], s, h);
    } else {
      NoHistoryBefore(maxSessions, events[..n], t, h);
      NewHandler(maxSessions, t, events[n], h);
      NewHistory(events[..n], events[n], s, h);
    }
  }

  lemma NewHistory(events: seq<Event>, e: Event, s: State, h: int)
    requires h in s.inits && s.inits[h].gate.Waiting? && s.inits[h].sid.None? && e.Begin?
    requires PrepareSettled(h, true) !in events && forall sid, now :: SessionInitialized(h, sid, now) !in events
    ensures HistoryTold(events + [e], s, h)
  {
  }

  // ---------------------------------------------------------------- what a session survives

  /** A session begins with the build of its handler and the time it was reported, and takes over the slot. */
  lemma SessionBegins(maxSessions: int, s: State, h: int, sid: int, now: int)
    requires Inv(maxSessions, s) && Enabled(s, SessionInitialized(h, sid, now))
    ensures var t := Next(maxSessions, s, SessionInitialized(h, sid, now));
            && sid !in s.sessions && t.sessions == s.sessions[sid := Session(h, now)] && t.pending == s.pending - 1
  {
    InvParts(maxSessions, s);
    FreshSid(s, h, sid);
    RegisterReplaces(s, h, sid, now);
    hide *;
    NextRegisters(maxSessions, s, h, sid, now);
  }

  lemma NextRegisters(maxSessions: int, s: State, h: int, sid: int, now: int)
    requires Enabled(s, SessionInitialized(h, sid, now))
    ensures h in s.inits && Next(maxSessions, s, SessionInitialized(h, sid, now)) == Register(s, h, sid, now)
  {
  }

  /** The event ends the session: closed by the client, idle at a sweep, or never prepared. */
  predicate EndsSession(s: State, e: Event, sid: int)
    requires sid in s.sessions
  {
    || e == SessionClosed(sid) || (e.Sweep? && s.sessions[sid].lastSeen < e.cutoff)
    || (e.PrepareSettled? && !e.ok && e.h == s.sessions[sid].owner)
  }

  /** The event is a request of the session; its stamp becomes the time of the request. */
  predicate Refreshes(e: Event, sid: int) {
    (e.Touch? && e.sid == sid) || (e.PostArrives? && e.sid == sid)
  }

  /**
   A session leaves the map for one of these reasons and each of them removes it. Otherwise it keeps its
   build, and only a request of its own moves its stamp.
   */
  lemma {:induction false} SessionEndsExactlyWhen(maxSessions: int, s: State, e: Event, sid: int)
    requires Inv(maxSessions, s) && Enabled(s, e) && sid in s.sessions
    ensures var t := Next(maxSessions, s, e).sessions;
            if EndsSession(s, e, sid) then sid !in t
            else
              && sid in t
              && t[sid] == if Refreshes(e, sid) then s.sessions[sid].(lastSeen := e.now) else s.sessions[sid]
  {
    InvParts(maxSessions, s);
    hide Inv, InitOk, Capacity, PostsKnown, SessionsOwned, SidsDistinct;
    match e
    case Sweep(cutoff, order) =>
      SweepKeeps(maxSessions, s, cutoff, order);
      if sid in DisposeStale(s, cutoff, order).sessions { StaleKeepsRest(s, cutoff, order, sid); }
    case PrepareSettled(h, ok) => FailureEndsItsSession(maxSessions, s, h, ok, sid);
    case _ => hide Next, Enabled; OtherEventsKeep(maxSessions, s, e, sid);
  }

  lemma OtherEventsKeep(maxSessions: int, s: State, e: Event, sid: int)
    requires SessionsOwned(s) && Enabled(s, e) && sid in s.sessions && !e.Sweep? && !e.PrepareSettled?
    ensures var t := Next(maxSessions, s, e).sessions;
            if e == SessionClosed(sid) then sid !in t
            else
              && sid in t
              && t[sid] == if Refreshes(e, sid) then s.sessions[sid].(lastSeen := e.now) else s.sessions[sid]
  {
  }

  lemma FailureEndsItsSession(maxSessions: int, s: State, h: int, ok: bool, sid: int)
    requires SessionsOwned(s) && SidsDistinct(s) && Enabled(s, PrepareSettled(h, ok)) && sid in s.sessions
    ensures var t := Prepared(s, h, ok).sessions;
            if !ok && h == s.sessions[sid].owner then sid !in t else sid in t && t[sid] == s.sessions[sid]
  {
  }

  lemma {:induction false} StaleKeepsRest(s: State, cutoff: int, order: seq<int>, sid: int)
    requires sid in DisposeStale(s, cutoff, order).sessions
    ensures sid in s.sessions && DisposeStale(s, cutoff, order).sessions[sid] == s.sessions[sid]
    decreases |order|
  {
    if order != [] { StaleKeepsRest(s, cutoff, order[..|order| - 1], sid); }
  }

  /** No event of the continuation ends the session but sweeps up to `since`, and no request is older. */
  ghost predicate OnlySwept(events: seq<Event>, sid: int, owner: int, since: int) {
    forall e :: e in events ==>
                  && e != SessionClosed(sid) && e != PrepareSettled(owner, false)
                  && (e.Sweep? ==> e.cutoff <= since) && (Refreshes(e, sid) ==> e.now >= since)
  }

  /** A request keeps its session, with the same build, through every sweep whose cutoff it is not older than. */
  lemma {:induction false} RequestOutlivesSweeps(maxSessions: int, s: State, e: Event, events: seq<Event>, t: State,
                                                 sid: int)
    requires Inv(maxSessions, s) && Enabled(s, e) && sid in s.sessions && Refreshes(e, sid)
    requires Continues(maxSessions, Next(maxSessions, s, e), events, t)
    requires OnlySwept(events, sid, s.sessions[sid].owner, e.now)
    ensures Inv(maxSessions, t) && sid in t.sessions && t.sessions[sid].owner == s.sessions[sid].owner
    ensures t.sessions[sid].lastSeen >= e.now
    decreases |events|
  {
    hide Next, Inv, Enabled;
    if events == [] {
      SessionEndsExactlyWhen(maxSessions, s, e, sid);
      InvariantKept(maxSessions, s, e);
    } else {
      var n := |events| - 1;
      var first := Next(maxSessions, s, e);
      var u :| Continues(maxSessions, first, events[..n], u) && Enabled(u, events[n])
        && t == Next(maxSessions, u, events[n]);
      assert events[n] in events && forall f :: f in events[..n] ==> f in events;
      RequestOutlivesSweeps(maxSessions, s, e, events[..n], u, sid);
      SessionEndsExactlyWhen(maxSessions, u, events[n], sid);
      InvariantKept(maxSessions, u, events[n]);
    }
  }
}
