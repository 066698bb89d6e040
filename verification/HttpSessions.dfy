/**
 The session lifecycle of the Streamable-HTTP listener as a state machine. Each event is one stretch
 of a handler, a callback or the timer between two `await`s, so every interleaving of handlers is a
 sequence of events. A build (an isolated MCP server with its backend) is named by the initialize
 handler that creates it.
 */
module HttpSessions {
  import opened Prelude

  // ---------------------------------------------------------------- request bodies

  /** A JSON value of a body, as far as the gate looks at it. */
  datatype Message = Object(hasMethod: bool, hasId: bool) | NotAnObject

  datatype Body = Single(message: Message) | Batch(messages: seq<Message>)

  predicate IsRequest(m: Message) {
    m.Object? && m.hasMethod && m.hasId
  }

  function Messages(body: Body): seq<Message> {
    match body case Single(m) => [m] case Batch(ms) => ms
  }

  predicate HasRequest(body: Body) {
    exists m :: m in Messages(body) && IsRequest(m)
  }

  // ---------------------------------------------------------------- the state

  /** The `prepared` promise of a session. */
  datatype Gate = Waiting | Open | Failed

  /** Where an initialize handler stands: at one of its awaits, returned, or thrown out of the factory. */
  datatype Pc = Connecting | Handling | Preparing | Finished | Crashed

  /**
   One initialize handler: its session id once `onsessioninitialized` fired, whether it still holds
   a reserved slot, its gate, and how often its build was disposed by `disposeSession` and by itself.
   */
  datatype Init = Init(pc: Pc, sid: Option<int>, holdsSlot: bool, gate: Gate, swept: nat, dropped: nat)

  datatype Session = Session(owner: int, lastSeen: int)

  /**
   A POST that names a session: reading its body, for a session that exists or for none; awaiting the
   gate with its body; or answered with a status.
   */
  datatype Post =
    | Reading(sid: int, owner: int)
    | Stray
    | Blocked(sid: int, owner: int, body: Body)
    | Answered(status: int)

  /** The body of a post, handed to the transport of a session. */
  datatype Delivery = Delivery(post: int, sid: int, owner: int, body: Body)

  datatype State = State(sessions: map<int, Session>, pending: int, inits: map<int, Init>, posts: map<int, Post>,
                         log: seq<Delivery>)

  datatype Event =
    | Begin(h: int, factoryReturns: bool)
    | ConnectSettled(h: int, ok: bool)
    | SessionInitialized(h: int, sid: int, now: int)
    | HandleSettled(h: int, ok: bool)
    | PrepareSettled(h: int, ok: bool)
    | SessionClosed(sid: int)
    | Sweep(cutoff: int, order: seq<int>)
    | Touch(sid: int, now: int)
    | PostArrives(r: int, sid: int, now: int)
    | BodyTooLarge(r: int)
    | BodyRead(r: int, body: Body)
    | GateSettled(r: int)

  method BodyHasRequest(body: Body) returns (found: bool)
    ensures found <==> HasRequest(body)
  {
    var messages := Messages(body);
    found := false;
    for i := 0 to |messages|
      invariant found <==> exists m :: m in messages[..i] && IsRequest(m)
    {
      assert messages[..i + 1] == messages[..i] + [messages[i]];
      if IsRequest(messages[i]) { found := true; }
    }
    assert messages[..|messages|] == messages;
  }

  // ---------------------------------------------------------------- the transitions

  const EMPTY: State := State(map[], 0, map[], map[], [])

  function ReleaseSlot(s: State, h: int): State
    requires h in s.inits
  {
    if s.inits[h].holdsSlot
    then s.(inits := s.inits[h := s.inits[h].(holdsSlot := false)], pending := s.pending - 1)
    else s
  }

  function Settle(s: State, h: int, pc: Pc, gate: Gate): State
    requires h in s.inits
  {
    s.(inits := s.inits[h := s.inits[h].(pc := pc, gate := gate)])
  }

  /** `disposeSession`: takes the session out of the map first, so its build is disposed once. */
  function Dispose(s: State, sid: int): State {
    if sid !in s.sessions then s
    else
      var owner := s.sessions[sid].owner;
      var t := s.(sessions := s.sessions - {sid});
      if owner in s.inits then t.(inits := s.inits[owner := s.inits[owner].(swept := s.inits[owner].swept + 1)]) else t
  }

  function DisposeStale(s: State, cutoff: int, order: seq<int>): State {
    if order == [] then s
    else
      var t := DisposeStale(s, cutoff, order[..|order| - 1]);
      var sid := order[|order| - 1];
      if sid in s.sessions && s.sessions[sid].lastSeen < cutoff then Dispose(t, sid) else t
  }

  /** The handler's own clean-up of a build that is not in the map. */
  function Drop(s: State, h: int): State
    requires h in s.inits
  {
    s.(inits := s.inits[h := s.inits[h].(dropped := s.inits[h].dropped + 1)])
  }

  predicate Registered(s: State, h: int)
    requires h in s.inits
  {
    s.inits[h].sid.Some? && s.inits[h].sid.value in s.sessions
  }

  /** connect or handleRequest threw: free the slot, fail the gate, clean up unless registered. */
  function Abort(s: State, h: int): State
    requires h in s.inits
  {
    var t := Settle(ReleaseSlot(s, h), h, Finished, Failed);
    if Registered(t, h) then t else Drop(t, h)
  }

  function Refresh(s: State, sid: int, now: int): State {
    if sid in s.sessions then s.(sessions := s.sessions[sid := s.sessions[sid].(lastSeen := now)]) else s
  }

  ghost predicate Unused(s: State, sid: int) {
    forall k :: k in s.inits ==> s.inits[k].sid != Some(sid)
  }

  predicate AwaitsBody(p: Post) {
    p.Reading? || p.Stray?
  }

  /** What the environment may do next: promises settle once, session ids are fresh, timers fire any time. */
  ghost predicate Enabled(s: State, e: Event) {
    match e
    case Begin(h, _) => h !in s.inits
    case ConnectSettled(h, _) => h in s.inits && s.inits[h].pc.Connecting?
    case SessionInitialized(h, sid, _) =>
      h in s.inits && s.inits[h].pc.Handling? && s.inits[h].sid.None? && Unused(s, sid)
    case HandleSettled(h, _) => h in s.inits && s.inits[h].pc.Handling?
    case PrepareSettled(h, _) => h in s.inits && s.inits[h].pc.Preparing?
    case SessionClosed(_) => true
    case Sweep(_, order) => Distinct(order) && forall sid :: sid in order <==> sid in s.sessions
    case Touch(_, _) => true
    case PostArrives(r, _, _) => r !in s.posts
    case BodyTooLarge(r) => r in s.posts && AwaitsBody(s.posts[r])
    case BodyRead(r, _) => r in s.posts && AwaitsBody(s.posts[r])
    case GateSettled(r) =>
      r in s.posts && s.posts[r].Blocked? && s.posts[r].owner in s.inits && !s.inits[s.posts[r].owner].gate.Waiting?
  }

  /** An initialize request: refused at capacity, else a slot is reserved before anything is awaited. */
  function Admit(maxSessions: int, s: State, h: int, factoryReturns: bool): State {
    if |s.sessions| + s.pending >= maxSessions then s
    else s.(pending := s.pending + 1,
            inits := s.inits[h := Init(if factoryReturns then Connecting else Crashed, None, true, Waiting, 0, 0)])
  }

  /** `onsessioninitialized`: the reservation becomes a session. */
  function Register(s: State, h: int, sid: int, now: int): State
    requires h in s.inits
  {
    ReleaseSlot(s.(sessions := s.sessions[sid := Session(h, now)],
                   inits := s.inits[h := s.inits[h].(sid := Some(sid))]), h)
  }

  /** handleRequest returned: prepare the session if it is still registered, clean up otherwise. */
  function Handled(s: State, h: int): State
    requires h in s.inits
  {
    var t := ReleaseSlot(s, h);
    if Registered(t, h) then Settle(t, h, Preparing, Waiting) else Drop(Settle(t, h, Finished, Failed), h)
  }

  /** prepare settled: open the gate, or fail it and dispose the session. */
  function Prepared(s: State, h: int, ok: bool): State
    requires h in s.inits
  {
    var t := Settle(s, h, Finished, if ok then Open else Failed);
    if !ok && s.inits[h].sid.Some? then Dispose(t, s.inits[h].sid.value) else t
  }

  function Arrive(s: State, r: int, sid: int, now: int): State {
    if sid in s.sessions then Refresh(s, sid, now).(posts := s.posts[r := Reading(sid, s.sessions[sid].owner)])
    else s.(posts := s.posts[r := Stray])
  }

  function Refuse(s: State, r: int, status: int): State {
    s.(posts := s.posts[r := Answered(status)])
  }

  /** The gate: a body with a request waits for prepare, any other goes straight to the transport. */
  function Read(s: State, r: int, body: Body): State
    requires r in s.posts && AwaitsBody(s.posts[r])
  {
    var p := s.posts[r];
    if p.Stray? then Refuse(s, r, 400)
    else if HasRequest(body) then s.(posts := s.posts[r := Blocked(p.sid, p.owner, body)])
    else s.(posts := s.posts[r := Answered(200)], log := s.log + [Delivery(r, p.sid, p.owner, body)])
  }

  /** The awaited gate settled: look the session up again before handing the request over. */
  function Resume(s: State, r: int): State
    requires r in s.posts && s.posts[r].Blocked? && s.posts[r].owner in s.inits
  {
    var p := s.posts[r];
    if s.inits[p.owner].gate.Failed? then Refuse(s, r, 503)
    else if p.sid !in s.sessions then Refuse(s, r, 404)
    else s.(posts := s.posts[r := Answered(200)],
            log := s.log + [Delivery(r, p.sid, s.sessions[p.sid].owner, p.body)])
  }

  ghost function Next(maxSessions: int, s: State, e: Event): State
    requires Enabled(s, e)
  {
    match e
    case Begin(h, factoryReturns) => Admit(maxSessions, s, h, factoryReturns)
    case ConnectSettled(h, ok) => if ok then Settle(s, h, Handling, Waiting) else Abort(s, h)
    case SessionInitialized(h, sid, now) => Register(s, h, sid, now)
    case HandleSettled(h, ok) => if ok then Handled(s, h) else Abort(s, h)
    case PrepareSettled(h, ok) => Prepared(s, h, ok)
    case SessionClosed(sid) => Dispose(s, sid)
    case Sweep(cutoff, order) => DisposeStale(s, cutoff, order)
    case Touch(sid, now) => Refresh(s, sid, now)
    case PostArrives(r, sid, now) => Arrive(s, r, sid, now)
    case BodyTooLarge(r) => Refuse(s, r, 413)
    case BodyRead(r, body) => Read(s, r, body)
    case GateSettled(r) => Resume(s, r)
  }

  /** `s` is the state after some run of enabled events from the start. */
  ghost predicate Run(maxSessions: int, events: seq<Event>, s: State)
    decreases |events|
  {
    if events == [] then s == EMPTY
    else
      var n := |events| - 1;
      exists t :: Run(maxSessions, events[..n], t) && Enabled(t, events[n]) && s == Next(maxSessions, t, events[n])
  }

  // ---------------------------------------------------------------- the invariant

  ghost function Holders(inits: map<int, Init>): set<int> {
    set h | h in inits && inits[h].holdsSlot
  }

  ghost predicate InMap(s: State, h: int)
    requires h in s.inits
  {
    s.inits[h].sid.Some? && s.inits[h].sid.value in s.sessions && s.sessions[s.inits[h].sid.value].owner == h
  }

  /** One initialize handler, at every point of its life, given whether its session is in the map. */
  ghost predicate RecordOk(i: Init, inMap: bool) {
    && (i.holdsSlot <==> i.pc.Connecting? || i.pc.Crashed? || (i.pc.Handling? && i.sid.None?))
    && (i.pc.Connecting? || i.pc.Crashed? ==> i.sid.None?)
    && (i.pc.Preparing? || i.gate.Open? ==> i.sid.Some?)
    && (i.pc.Finished? <==> !i.gate.Waiting?)
    && (i.dropped > 0 ==> i.pc.Finished? && !inMap) && i.dropped <= 1
    && i.swept == (if i.sid.Some? && !inMap then 1 else 0)
    && (i.pc.Finished? ==> inMap || i.swept + i.dropped > 0)
  }

  ghost predicate InitOk(s: State, h: int)
    requires h in s.inits
  {
    RecordOk(s.inits[h], InMap(s, h))
  }

  ghost predicate SessionsOwned(s: State) {
    forall sid :: sid in s.sessions ==>
             s.sessions[sid].owner in s.inits && s.inits[s.sessions[sid].owner].sid == Some(sid)
  }

  ghost predicate SidsDistinct(s: State) {
    forall h, k :: h in s.inits && k in s.inits && s.inits[h].sid.Some? && s.inits[h].sid == s.inits[k].sid ==> h == k
  }

  ghost predicate PostsKnown(s: State) {
    && (forall r :: r in s.posts && (s.posts[r].Reading? || s.posts[r].Blocked?) ==>
          s.posts[r].owner in s.inits && s.inits[s.posts[r].owner].sid == Some(s.posts[r].sid))
    && (forall r :: r in s.posts && s.posts[r].Blocked? ==> HasRequest(s.posts[r].body))
    && (forall d :: d in s.log ==> d.owner in s.inits && s.inits[d.owner].sid == Some(d.sid))
    && (forall d :: d in s.log && HasRequest(d.body) ==> s.inits[d.owner].gate.Open?)
  }

  ghost predicate Capacity(maxSessions: int, s: State) {
    && s.pending == |Holders(s.inits)|
    && |s.sessions| + s.pending <= if maxSessions < 0 then 0 else maxSessions
  }

  ghost predicate Inv(maxSessions: int, s: State) {
    && Capacity(maxSessions, s)
    && InitsOk(s)
    && SessionsOwned(s) && SidsDistinct(s) && PostsKnown(s)
  }

  ghost predicate InitsOk(s: State) {
    forall h :: h in s.inits ==> InitOk(s, h)
  }

  // ---------------------------------------------------------------- every event keeps it

  /** From `s` to `t` only handler `h`, and sessions of its own, changed. */
  ghost predicate OnlyTouches(s: State, t: State, h: int) {
    && t.posts == s.posts && t.log == s.log
    && h in t.inits && t.inits == s.inits[h := t.inits[h]]
    && (forall sid :: sid in s.sessions && s.sessions[sid].owner != h ==>
          sid in t.sessions && t.sessions[sid].owner == s.sessions[sid].owner)
    && (forall sid :: sid in t.sessions && t.sessions[sid].owner != h ==>
          sid in s.sessions && s.sessions[sid].owner == t.sessions[sid].owner)
  }

  function Slot(s: State, h: int): int {
    if h in s.inits && s.inits[h].holdsSlot then 1 else 0
  }

  lemma CapacityKept(maxSessions: int, s: State, t: State, h: int)
    requires Capacity(maxSessions, s) && h in t.inits && t.inits == s.inits[h := t.inits[h]]
    requires t.pending == s.pending + Slot(t, h) - Slot(s, h)
    requires |t.sessions| + t.pending <= |s.sessions| + s.pending || |t.sessions| + t.pending <= maxSessions
    ensures Capacity(maxSessions, t)
  {
    HoldersAfter(s.inits, h, t.inits[h]);
    hide Holders;
  }

  lemma HoldersAfter(inits: map<int, Init>, h: int, i: Init)
    ensures |Holders(inits[h := i])| == |Holders(inits)| + (if i.holdsSlot then 1 else 0)
                                       - (if h in inits && inits[h].holdsSlot then 1 else 0)
  {
    if i.holdsSlot {
      assert Holders(inits[h := i]) == Holders(inits) + {h};
    } else {
      assert Holders(inits[h := i]) == Holders(inits) - {h};
    }
  }

  lemma OtherInitsKept(s: State, t: State, h: int)
    requires OnlyTouches(s, t, h) && InitsOk(s)
    ensures forall k :: k in t.inits && k != h ==> InitOk(t, k)
  {
    forall k | k in t.inits && k != h ensures InitOk(t, k) {
      assert InitOk(s, k);
      if s.inits[k].sid.Some? {
        var sid := s.inits[k].sid.value;
        assert InMap(t, k) <==> sid in t.sessions && t.sessions[sid].owner == k;
        assert InMap(s, k) <==> sid in s.sessions && s.sessions[sid].owner == k;
      }
    }
  }

  lemma PostsKept(s: State, t: State, h: int)
    requires OnlyTouches(s, t, h) && PostsKnown(s)
    requires h in s.inits && s.inits[h].sid.Some? ==> t.inits[h].sid == s.inits[h].sid
    requires h in s.inits && s.inits[h].gate.Open? ==> t.inits[h].gate.Open?
    ensures PostsKnown(t)
  {
  }

  /** The invariant follows from what changed for `h` alone. */
  lemma LocalChangeKeeps(maxSessions: int, s: State, t: State, h: int)
    requires Inv(maxSessions, s) && OnlyTouches(s, t, h) && Capacity(maxSessions, t) && InitOk(t, h)
    requires SessionsOwned(t) && SidsDistinct(t)
    requires h in s.inits && s.inits[h].sid.Some? ==> t.inits[h].sid == s.inits[h].sid
    requires h in s.inits && s.inits[h].gate.Open? ==> t.inits[h].gate.Open?
    ensures Inv(maxSessions, t)
  {
    OtherInitsKept(s, t, h);
    PostsKept(s, t, h);
    assert InitsOk(t) by { hide InitOk; }
    hide InitsOk, PostsKnown, SessionsOwned, SidsDistinct, Capacity;
  }

  /** `s` with the record of handler `h` and the reservation count replaced. */
  function Replace(s: State, h: int, i: Init, pending: int): State {
    s.(inits := s.inits[h := i], pending := pending)
  }

  /** The common case: the map stays, and the handler keeps its session id. */
  lemma ReplaceKeeps(maxSessions: int, s: State, h: int, i: Init, pending: int)
    requires Inv(maxSessions, s) && h in s.inits && i.sid == s.inits[h].sid && (s.inits[h].gate.Open? ==> i.gate.Open?)
    requires RecordOk(i, InMap(s, h))
    requires pending == s.pending - (if s.inits[h].holdsSlot && !i.holdsSlot then 1 else 0)
    requires i.holdsSlot ==> s.inits[h].holdsSlot
    ensures Inv(maxSessions, Replace(s, h, i, pending))
  {
    var t := Replace(s, h, i, pending);
    assert InMap(t, h) == InMap(s, h);
    assert OnlyTouches(s, t, h);
    CapacityKept(maxSessions, s, t, h);
    hide RecordOk, Capacity;
    LocalChangeKeeps(maxSessions, s, t, h);
  }

  lemma AdmitKeeps(maxSessions: int, s: State, h: int, factoryReturns: bool)
    requires Inv(maxSessions, s) && h !in s.inits
    ensures Inv(maxSessions, Admit(maxSessions, s, h, factoryReturns))
  {
    var t := Admit(maxSessions, s, h, factoryReturns);
    if |s.sessions| + s.pending < maxSessions {
      CapacityKept(maxSessions, s, t, h);
      LocalChangeKeeps(maxSessions, s, t, h);
    }
  }

  lemma SettleKeeps(maxSessions: int, s: State, h: int, pc: Pc, gate: Gate)
    requires Inv(maxSessions, s) && h in s.inits && s.inits[h].gate.Waiting?
    requires (s.inits[h].pc.Connecting? && pc.Handling? && gate.Waiting?)
             || (s.inits[h].pc.Preparing? && pc.Finished? && !gate.Waiting?)
    ensures Inv(maxSessions, Settle(s, h, pc, gate))
  {
    assert InitOk(s, h);
    hide Inv;
    ReplaceKeeps(maxSessions, s, h, s.inits[h].(pc := pc, gate := gate), s.pending);
  }

  /** What `Abort` makes of the handler's record. */
  function Aborted(s: State, h: int): Init
    requires h in s.inits
  {
    var i := s.inits[h].(pc := Finished, gate := Failed, holdsSlot := false);
    if Registered(s, h) then i else i.(dropped := i.dropped + 1)
  }

  function Freed(s: State, h: int): int
    requires h in s.inits
  {
    s.pending - if s.inits[h].holdsSlot then 1 else 0
  }

  lemma AbortReplaces(s: State, h: int)
    requires h in s.inits
    ensures Abort(s, h) == Replace(s, h, Aborted(s, h), Freed(s, h))
  {
    assert Abort(s, h).inits == Replace(s, h, Aborted(s, h), Freed(s, h)).inits;
  }

  lemma AbortKeeps(maxSessions: int, s: State, h: int)
    requires Inv(maxSessions, s) && h in s.inits && (s.inits[h].pc.Connecting? || s.inits[h].pc.Handling?)
    ensures Inv(maxSessions, Abort(s, h))
  {
    assert InitOk(s, h);
    SessionIsOwn(s, h);
    AbortReplaces(s, h);
    hide Inv, Abort, Replace;
    ReplaceKeeps(maxSessions, s, h, Aborted(s, h), Freed(s, h));
  }

  function HandledRecord(s: State, h: int): Init
    requires h in s.inits
  {
    var i := s.inits[h].(holdsSlot := false);
    if Registered(s, h) then i.(pc := Preparing, gate := Waiting)
    else i.(pc := Finished, gate := Failed, dropped := i.dropped + 1)
  }

  lemma HandledReplaces(s: State, h: int)
    requires h in s.inits
    ensures Handled(s, h) == Replace(s, h, HandledRecord(s, h), Freed(s, h))
  {
    assert Handled(s, h).inits == Replace(s, h, HandledRecord(s, h), Freed(s, h)).inits;
  }

  lemma HandledKeeps(maxSessions: int, s: State, h: int)
    requires Inv(maxSessions, s) && h in s.inits && s.inits[h].pc.Handling?
    ensures Inv(maxSessions, Handled(s, h))
  {
    assert InitOk(s, h);
    SessionIsOwn(s, h);
    HandledReplaces(s, h);
    hide Inv, Handled, Replace;
    ReplaceKeeps(maxSessions, s, h, HandledRecord(s, h), Freed(s, h));
  }

  lemma SessionIsOwn(s: State, h: int)
    requires SessionsOwned(s) && SidsDistinct(s) && h in s.inits
    ensures Registered(s, h) <==> InMap(s, h)
  {
    if Registered(s, h) {
      var sid := s.inits[h].sid.value;
      assert s.inits[s.sessions[sid].owner].sid == Some(sid) == s.inits[h].sid;
    }
  }

  lemma RegisterReplaces(s: State, h: int, sid: int, now: int)
    requires h in s.inits && s.inits[h].holdsSlot && sid !in s.sessions && s.inits[h].sid.None?
    ensures var t := Register(s, h, sid, now);
            && t.inits == s.inits[h := s.inits[h].(sid := Some(sid), holdsSlot := false)] && t.pending == s.pending - 1
            && t.sessions == s.sessions[sid := Session(h, now)] && |t.sessions| == |s.sessions| + 1
            && OnlyTouches(s, t, h) && InMap(t, h) && !InMap(s, h)
  {
    var t := Register(s, h, sid, now);
    assert t.inits == s.inits[h := s.inits[h].(sid := Some(sid), holdsSlot := false)];
    assert t.sessions.Keys == s.sessions.Keys + {sid};
  }

  lemma RegisterKeeps(maxSessions: int, s: State, h: int, sid: int, now: int)
    requires Inv(maxSessions, s) && h in s.inits && s.inits[h].pc.Handling? && s.inits[h].sid.None? && Unused(s, sid)
    ensures Inv(maxSessions, Register(s, h, sid, now))
  {
    hide *;
    InvParts(maxSessions, s);
    FreshSid(s, h, sid);
    var t := Register(s, h, sid, now);
    RegisterReplaces(s, h, sid, now);
    RegisteredOk(s, t, h, sid);
    InitializedOwned(s, t, h, sid);
    CapacityKept(maxSessions, s, t, h);
    LocalChangeKeeps(maxSessions, s, t, h);
  }

  lemma FreshSid(s: State, h: int, sid: int)
    requires SessionsOwned(s) && Unused(s, sid) && h in s.inits && InitOk(s, h) && s.inits[h].pc.Handling?
             && s.inits[h].sid.None?
    ensures sid !in s.sessions && s.inits[h].holdsSlot
  {
  }

  lemma RegisteredOk(s: State, t: State, h: int, sid: int)
    requires h in s.inits && InitOk(s, h) && s.inits[h].pc.Handling? && s.inits[h].sid.None?
    requires h in t.inits && t.inits[h] == s.inits[h].(sid := Some(sid), holdsSlot := false) && InMap(t, h)
    ensures InitOk(t, h) && Slot(s, h) == 1 && Slot(t, h) == 0 && !s.inits[h].gate.Open?
  {
  }

  lemma InitializedOwned(s: State, t: State, h: int, sid: int)
    requires SessionsOwned(s) && SidsDistinct(s) && h in s.inits && s.inits[h].sid.None?
    requires sid !in s.sessions && Unused(s, sid)
    requires h in t.inits && t.inits == s.inits[h := t.inits[h]] && t.inits[h].sid == Some(sid)
    requires t.sessions.Keys == s.sessions.Keys + {sid} && t.sessions[sid].owner == h
    requires forall k :: k in s.sessions ==> t.sessions[k] == s.sessions[k]
    ensures SessionsOwned(t) && SidsDistinct(t)
  {
  }

  lemma DisposeReplaces(s: State, sid: int)
    requires SessionsOwned(s) && sid in s.sessions
    ensures var t, h := Dispose(s, sid), s.sessions[sid].owner;
            && h in s.inits && s.inits[h].sid == Some(sid)
            && t.inits == s.inits[h := s.inits[h].(swept := s.inits[h].swept + 1)] && t.pending == s.pending
            && t.sessions == s.sessions - {sid} && |t.sessions| == |s.sessions| - 1
            && OnlyTouches(s, t, h) && InMap(s, h) && !InMap(t, h)
  {
    var t := Dispose(s, sid);
    assert t.sessions.Keys == s.sessions.Keys - {sid};
  }

  lemma DisposedOk(s: State, t: State, h: int)
    requires h in s.inits && InitOk(s, h) && InMap(s, h)
    requires h in t.inits && t.inits[h] == s.inits[h].(swept := s.inits[h].swept + 1) && !InMap(t, h)
    ensures InitOk(t, h) && Slot(t, h) == Slot(s, h)
  {
  }

  lemma InvParts(maxSessions: int, s: State)
    requires Inv(maxSessions, s)
    ensures SessionsOwned(s) && SidsDistinct(s) && Capacity(maxSessions, s) && PostsKnown(s)
    ensures forall h :: h in s.inits ==> InitOk(s, h)
  {
  }

  lemma DisposeKeeps(maxSessions: int, s: State, sid: int)
    requires Inv(maxSessions, s)
    ensures Inv(maxSessions, Dispose(s, sid))
    ensures Dispose(s, sid).sessions == s.sessions - {sid}
  {
    if sid in s.sessions {
      hide *;
      InvParts(maxSessions, s);
      var t, h := Dispose(s, sid), s.sessions[sid].owner;
      DisposeReplaces(s, sid);
      DisposedOk(s, t, h);
      RemovalOwned(s, t, h);
      CapacityKept(maxSessions, s, t, h);
      LocalChangeKeeps(maxSessions, s, t, h);
    }
  }

  lemma RemovalOwned(s: State, t: State, h: int)
    requires SessionsOwned(s) && SidsDistinct(s) && h in s.inits && h in t.inits
    requires t.inits == s.inits[h := t.inits[h]] && t.inits[h].sid == s.inits[h].sid
    requires forall k :: k in t.sessions ==> k in s.sessions && t.sessions[k] == s.sessions[k]
    ensures SessionsOwned(t) && SidsDistinct(t)
  {
  }

  lemma PreparedKeeps(maxSessions: int, s: State, h: int, ok: bool)
    requires Inv(maxSessions, s) && h in s.inits && s.inits[h].pc.Preparing?
    ensures Inv(maxSessions, Prepared(s, h, ok))
  {
    assert InitOk(s, h);
    SettleKeeps(maxSessions, s, h, Finished, if ok then Open else Failed);
    if !ok { DisposeKeeps(maxSessions, Settle(s, h, Finished, Failed), s.inits[h].sid.value); }
  }

  lemma {:induction false} SweepKeeps(maxSessions: int, s: State, cutoff: int, order: seq<int>)
    requires Inv(maxSessions, s)
    ensures Inv(maxSessions, DisposeStale(s, cutoff, order))
    ensures forall sid :: sid in DisposeStale(s, cutoff, order).sessions <==>
              sid in s.sessions && (sid in order ==> s.sessions[sid].lastSeen >= cutoff)
    decreases |order|
  {
    if order != [] {
      var n := |order| - 1;
      assert order == order[..n] + [order[n]];
      SweepKeeps(maxSessions, s, cutoff, order[..n]);
      DisposeKeeps(maxSessions, DisposeStale(s, cutoff, order[..n]), order[n]);
    }
  }

  lemma RefreshKeeps(maxSessions: int, s: State, sid: int, now: int)
    requires Inv(maxSessions, s)
    ensures Inv(maxSessions, Refresh(s, sid, now))
  {
    var t := Refresh(s, sid, now);
    assert t.sessions.Keys == s.sessions.Keys;
    assert |t.sessions| == |t.sessions.Keys| == |s.sessions|;
    forall k | k in t.inits ensures InitOk(t, k) {
      assert InitOk(s, k);
    }
  }

  /** Only posts and the log changed, sensibly. */
  lemma PostChangeKeeps(maxSessions: int, s: State, t: State)
    requires Inv(maxSessions, s) && PostsKnown(t)
    requires t.sessions == s.sessions && t.inits == s.inits && t.pending == s.pending
    ensures Inv(maxSessions, t)
  {
    forall k | k in t.inits ensures InitOk(t, k) {
      assert InitOk(s, k);
    }
  }

  lemma ArriveKeeps(maxSessions: int, s: State, r: int, sid: int, now: int)
    requires Inv(maxSessions, s) && r !in s.posts
    ensures Inv(maxSessions, Arrive(s, r, sid, now))
  {
    RefreshKeeps(maxSessions, s, sid, now);
    var u := if sid in s.sessions then Refresh(s, sid, now) else s;
    hide InitOk, Capacity;
    PostChangeKeeps(maxSessions, u, Arrive(s, r, sid, now));
  }

  lemma ReadKeeps(maxSessions: int, s: State, r: int, body: Body)
    requires Inv(maxSessions, s) && r in s.posts && AwaitsBody(s.posts[r])
    ensures Inv(maxSessions, Read(s, r, body))
  {
    hide InitOk, Capacity;
    PostChangeKeeps(maxSessions, s, Read(s, r, body));
  }

  lemma ResumeKeeps(maxSessions: int, s: State, r: int)
    requires Inv(maxSessions, s) && Enabled(s, GateSettled(r))
    ensures Inv(maxSessions, Resume(s, r))
  {
    hide InitOk, Capacity;
    PostChangeKeeps(maxSessions, s, Resume(s, r));
  }

  lemma {:induction false} InvariantKept(maxSessions: int, s: State, e: Event)
    requires Inv(maxSessions, s) && Enabled(s, e)
    ensures Inv(maxSessions, Next(maxSessions, s, e))
  {
    hide Inv, Abort, Admit, Register, Handled, Prepared, Dispose, DisposeStale, Refresh, Arrive, Refuse, Read, Resume;
    match e
    case Begin(h, f) => AdmitKeeps(maxSessions, s, h, f);
    case ConnectSettled(h, ok) =>
      GateWaits(maxSessions, s, h);
      if ok { SettleKeeps(maxSessions, s, h, Handling, Waiting); } else { AbortKeeps(maxSessions, s, h); }
    case SessionInitialized(h, sid, now) => RegisterKeeps(maxSessions, s, h, sid, now);
    case HandleSettled(h, ok) => if ok { HandledKeeps(maxSessions, s, h); } else { AbortKeeps(maxSessions, s, h); }
    case PrepareSettled(h, ok) => PreparedKeeps(maxSessions, s, h, ok);
    case SessionClosed(sid) => DisposeKeeps(maxSessions, s, sid);
    case Sweep(cutoff, order) => SweepKeeps(maxSessions, s, cutoff, order);
    case Touch(sid, now) => RefreshKeeps(maxSessions, s, sid, now);
    case PostArrives(r, sid, now) => ArriveKeeps(maxSessions, s, r, sid, now);
    case BodyTooLarge(r) => RefuseKeeps(maxSessions, s, r, 413);
    case BodyRead(r, body) => ReadKeeps(maxSessions, s, r, body);
    case GateSettled(r) => ResumeKeeps(maxSessions, s, r);
  }

  lemma GateWaits(maxSessions: int, s: State, h: int)
    requires Inv(maxSessions, s) && h in s.inits
    ensures s.inits[h].gate.Waiting? <==> !s.inits[h].pc.Finished?
  {
    assert InitOk(s, h);
  }

  lemma RefuseKeeps(maxSessions: int, s: State, r: int, status: int)
    requires Inv(maxSessions, s) && r in s.posts
    ensures Inv(maxSessions, Refuse(s, r, status))
  {
    hide InitOk, Capacity;
    PostChangeKeeps(maxSessions, s, Refuse(s, r, status));
  }

  // ---------------------------------------------------------------- what holds in every run

  lemma {:induction false} RunKeeps(maxSessions: int, events: seq<Event>, s: State)
    requires Run(maxSessions, events, s)
    ensures Inv(maxSessions, s)
    decreases |events|
  {
    if events == [] {
      assert Holders(s.inits) == {};
    } else {
      var n := |events| - 1;
      var t :| Run(maxSessions, events[..n], t) && Enabled(t, events[n]) && s == Next(maxSessions, t, events[n]);
      RunKeeps(maxSessions, events[..n], t);
      InvariantKept(maxSessions, t, events[n]);
    }
  }
}
