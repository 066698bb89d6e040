/**
 Watching a run's status resource: one poll chain per subscription, interleaved with unsubscribing,
 re-subscribing and shutdown at every point where the chain awaits. A step is what happens between two
 awaits, so an activation of the poll is one of three things: waiting for the backend, for the status
 or for the notification to be sent.
 */
module StatusSubscriptions {
  import opened Prelude

  // ---------------------------------------------------------------- snapshots

  /** A status read: its serialized form, the lifecycle fields where present, and the advised cadence. */
  datatype Snapshot = Snapshot(text: string, state: Option<string>, terminalStatus: Option<string>,
                               seconds: Option<real>)

  const TERMINAL_STATES: set<string> := {"completed", "failed", "cancelled", "canceled", "terminated", "timed_out"}
  const PERMANENT_STATUSES: set<int> := {403, 404, 409, 422, 501}
  const MIN_INTERVAL_MS := 20.0
  const MAX_INTERVAL_MS := 60000.0
  const DEFAULT_INTERVAL_MS := 1000.0

  predicate IsTerminal(s: Snapshot) {
    s.terminalStatus.Some? || (s.state.Some? && s.state.value in TERMINAL_STATES)
  }

  /** The advised cadence in milliseconds, kept within the bounds; anything unusable means the default. */
  function ClampInterval(seconds: Option<real>): (ms: real)
    ensures MIN_INTERVAL_MS <= ms <= MAX_INTERVAL_MS
    ensures seconds.Some? && MIN_INTERVAL_MS <= seconds.value * 1000.0 <= MAX_INTERVAL_MS ==>
              ms == seconds.value * 1000.0
    ensures seconds.Some? && 0.0 < seconds.value * 1000.0 < MIN_INTERVAL_MS ==> ms == MIN_INTERVAL_MS
    ensures seconds.Some? && MAX_INTERVAL_MS < seconds.value * 1000.0 ==> ms == MAX_INTERVAL_MS
    ensures seconds.None? || seconds.value <= 0.0 ==> ms == DEFAULT_INTERVAL_MS
  {
    if seconds.None? || seconds.value <= 0.0 then DEFAULT_INTERVAL_MS
    else
      var ms := seconds.value * 1000.0;
      var low := if ms < MIN_INTERVAL_MS then MIN_INTERVAL_MS else ms;
      if low > MAX_INTERVAL_MS then MAX_INTERVAL_MS else low
  }

  // ---------------------------------------------------------------- the state and its steps

  /** A subscription object; it outlives its place in the map while an activation still holds it. */
  datatype Sub = Sub(uri: string, last: Option<string>, stopped: bool, timer: Option<int>)

  datatype Phase = AwaitBackend | Fetching | Sending(snapshot: Snapshot)

  /** An activation of the poll and the object it looked up when it began. */
  datatype Activation = Activation(sub: int, phase: Phase)

  datatype Timer = Timer(uri: string, delay: real)

  /** A notification begun: for which object, what it had stored, and what it had just read. */
  datatype Note = Note(sub: int, uri: string, before: Option<string>, text: string)

  datatype State = State(subs: map<string, int>, objects: map<int, Sub>, timers: map<int, Timer>,
                         runs: map<int, Activation>, sent: seq<Note>, nextId: int)

  /** A failed call: the HTTP status when the control plane answered with one. */
  datatype Outcome<T> = Returns(value: T) | Throws(status: Option<int>)

  datatype Event =
    | Subscribe(uri: string, isStatus: bool)
    | Unsubscribe(uri: string)
    | DisposeAll
    | TimerFires(timer: int)
    | BackendSettles(run: int, degraded: Outcome<bool>)
    | FetchSettles(run: int, read: Outcome<Snapshot>)
    | SendSettles(run: int, sent: Outcome<()>)

  const INITIAL := State(map[], map[], map[], map[], [], 0)

  /** Every reference leads to an object. */
  predicate Linked(s: State) {
    && (forall u :: u in s.subs ==> s.subs[u] in s.objects)
    && (forall r :: r in s.runs ==> s.runs[r].sub in s.objects)
  }

  predicate Enabled(s: State, e: Event) {
    match e
    case TimerFires(t) => t in s.timers
    case BackendSettles(r, _) => r in s.runs && s.runs[r].phase.AwaitBackend?
    case FetchSettles(r, _) => r in s.runs && s.runs[r].phase.Fetching?
    case SendSettles(r, _) => r in s.runs && s.runs[r].phase.Sending?
    case _ => true
  }

  predicate IsPermanent(status: Option<int>) {
    status.Some? && status.value in PERMANENT_STATUSES
  }

  function Without(timers: map<int, Timer>, t: Option<int>): map<int, Timer> {
    if t.Some? then timers - {t.value} else timers
  }

  /** The start of a poll: it goes on only for an object that is mapped and not stopped. */
  function Poll(s: State, uri: string): State
    requires Linked(s)
  {
    if uri in s.subs && !s.objects[s.subs[uri]].stopped then
      s.(runs := s.runs[s.nextId := Activation(s.subs[uri], AwaitBackend)], nextId := s.nextId + 1)
    else s
  }

  function Halt(sub: Sub): Sub {
    sub.(stopped := true)
  }

  function Stop(s: State, uri: string): State
    requires Linked(s)
  {
    if uri !in s.subs then s
    else
      var o := s.subs[uri];
      s.(objects := s.objects[o := Halt(s.objects[o])], timers := Without(s.timers, s.objects[o].timer),
         subs := s.subs - {uri})
  }

  /** Every mapped object stopped and its timer cleared. */
  function StopAll(s: State): State
    requires Linked(s)
  {
    s.(objects := map o | o in s.objects :: if o in s.subs.Values then Halt(s.objects[o]) else s.objects[o],
       timers := s.timers - (set u | u in s.subs
                             && s.objects[s.subs[u]].timer.Some? :: s.objects[s.subs[u]].timer.value),
       subs := map[])
  }

  /** The activation ends and its object is stopped for good. */
  function Quit(s: State, r: int): State
    requires Linked(s) && r in s.runs
  {
    var o := s.runs[r].sub;
    s.(runs := s.runs - {r}, objects := s.objects[o := Halt(s.objects[o])])
  }

  /** The activation ends; unless its object was stopped meanwhile, the next poll is scheduled. */
  function Rearm(s: State, r: int, delay: real): State
    requires Linked(s) && r in s.runs
  {
    var o := s.runs[r].sub;
    var done := s.(runs := s.runs - {r});
    if s.objects[o].stopped then done
    else done.(timers := s.timers[s.nextId := Timer(s.objects[o].uri, delay)],
               objects := s.objects[o := s.objects[o].(timer := Some(s.nextId))], nextId := s.nextId + 1)
  }

  function Catch(s: State, r: int, status: Option<int>, delay: real): State
    requires Linked(s) && r in s.runs
  {
    if IsPermanent(status) then Quit(s, r) else Rearm(s, r, delay)
  }

  /** The snapshot becomes the stored one; a terminal one ends the watching. */
  function Store(s: State, r: int, snapshot: Snapshot): State
    requires Linked(s) && r in s.runs
  {
    var o := s.runs[r].sub;
    var stored := s.(objects := s.objects[o := s.objects[o].(last := Some(snapshot.text))]);
    if IsTerminal(snapshot) then Quit(stored, r) else Rearm(stored, r, ClampInterval(snapshot.seconds))
  }

  function Resubscribe(s: State, uri: string): State
    requires Linked(s)
  {
    var cleared := if uri in s.subs then s.(timers := Without(s.timers, s.objects[s.subs[uri]].timer)) else s;
    Poll(cleared.(objects := s.objects[s.nextId := Sub(uri, None, false, None)], subs := s.subs[uri := s.nextId],
                  nextId := s.nextId + 1), uri)
  }

  function Fetched(s: State, r: int, snapshot: Snapshot): State
    requires Linked(s) && r in s.runs
  {
    var o := s.runs[r].sub;
    var sub := s.objects[o];
    if sub.stopped then s.(runs := s.runs - {r})
    else if sub.last.Some? && snapshot.text != sub.last.value then
      s.(runs := s.runs[r := Activation(o, Sending(snapshot))],
         sent := s.sent + [Note(o, sub.uri, sub.last, snapshot.text)])
    else Store(s, r, snapshot)
  }

  function Next(s: State, e: Event): State
    requires Linked(s) && Enabled(s, e)
  {
    match e
    case Subscribe(uri, isStatus) =>
      if isStatus && (uri !in s.subs || s.objects[s.subs[uri]].stopped) then Resubscribe(s, uri) else s
    case Unsubscribe(uri) => Stop(s, uri)
    case DisposeAll => StopAll(s)
    case TimerFires(t) => Poll(s.(timers := s.timers - {t}), s.timers[t].uri)
    case BackendSettles(r, Returns(degraded)) =>
      if degraded then Quit(s, r) else s.(runs := s.runs[r := s.runs[r].(phase := Fetching)])
    case BackendSettles(r, Throws(status)) => Catch(s, r, status, DEFAULT_INTERVAL_MS)
    case FetchSettles(r, Returns(snapshot)) => Fetched(s, r, snapshot)
    case FetchSettles(r, Throws(status)) => Catch(s, r, status, DEFAULT_INTERVAL_MS)
    case SendSettles(r, Returns(_)) => Store(s, r, s.runs[r].phase.snapshot)
    case SendSettles(r, Throws(status)) => Catch(s, r, status, ClampInterval(s.runs[r].phase.snapshot.seconds))
  }

  // ---------------------------------------------------------------- what every step keeps

  ghost predicate Polling(s: State, o: int) {
    exists r :: r in s.runs && s.runs[r].sub == o
  }

  predicate Armed(s: State, o: int)
    requires o in s.objects
  {
    s.objects[o].timer.Some? && s.objects[o].timer.value in s.timers
  }

  /** A mapped URI leads to an object made for it. */
  predicate UriRight(s: State, u: string) {
    u in s.subs ==> s.subs[u] in s.objects && s.objects[s.subs[u]].uri == u
  }

  /** An unstopped object is the mapped one of its URI and has one continuation; a stopped one has no timer. */
  ghost predicate ObjectRight(s: State, o: int) {
    o in s.objects ==>
      && o < s.nextId && (s.objects[o].timer.Some? ==> s.objects[o].timer.value < s.nextId)
      && (Armed(s, o) ==> s.timers[s.objects[o].timer.value].uri == s.objects[o].uri)
      && (if s.objects[o].stopped then !Armed(s, o)
          else s.objects[o].uri in s.subs && s.subs[s.objects[o].uri] == o && (Polling(s, o) <==> !Armed(s, o)))
  }

  /** A pending timer belongs to the mapped object of its URI. */
  predicate TimerRight(s: State, t: int) {
    t in s.timers ==>
      && t < s.nextId && MIN_INTERVAL_MS <= s.timers[t].delay <= MAX_INTERVAL_MS
      && s.timers[t].uri in s.subs && s.subs[s.timers[t].uri] in s.objects
         && s.objects[s.subs[s.timers[t].uri]].timer == Some(t)
  }

  /** An activation is the only one of its object. */
  ghost predicate RunRight(s: State, r: int) {
    r in s.runs ==>
      && r < s.nextId && s.runs[r].sub in s.objects
      && forall q :: q in s.runs && s.runs[q].sub == s.runs[r].sub ==> q == r
  }

  ghost predicate Inv(s: State) {
    && (forall u :: UriRight(s, u))
    && (forall o :: ObjectRight(s, o))
    && (forall t :: TimerRight(s, t))
    && (forall r :: RunRight(s, r))
  }

  lemma InvLinked(s: State)
    requires Inv(s)
    ensures Linked(s)
  {
    forall u | u in s.subs ensures s.subs[u] in s.objects { assert UriRight(s, u); }
    forall r | r in s.runs ensures s.runs[r].sub in s.objects { assert RunRight(s, r); }
  }

  lemma StopKeeps(s: State, uri: string)
    requires Inv(s) && Linked(s)
    ensures Inv(Stop(s, uri))
  {
    var n := Stop(s, uri);
    if uri in s.subs {
      var o := s.subs[uri];
      assert UriRight(s, uri) && ObjectRight(s, o);
      forall u ensures UriRight(n, u) { assert UriRight(s, u); }
      forall p ensures ObjectRight(n, p) {
        assert ObjectRight(s, p);
        if p in s.objects && p != o && Armed(s,
                                             p) { assert ObjectRight(s, p); assert TimerRight(s,
                                                   s.objects[p].timer.value); }
      }
      forall t ensures TimerRight(n, t) { assert TimerRight(s, t); }
      forall r ensures RunRight(n, r) { assert RunRight(s, r); }
    }
  }

  lemma StopAllKeeps(s: State)
    requires Inv(s) && Linked(s)
    ensures Inv(StopAll(s))
  {
    var n := StopAll(s);
    forall o ensures ObjectRight(n, o) {
      assert ObjectRight(s, o);
      if o in s.objects && !s.objects[o].stopped { assert s.objects[o].uri in s.subs; }
    }
    forall t ensures TimerRight(n, t) {
      assert TimerRight(s, t);
      if t in s.timers {
        var u := s.timers[t].uri;
        assert u in s.subs && s.objects[s.subs[u]].timer == Some(t);
      }
    }
    forall r ensures RunRight(n, r) { assert RunRight(s, r); }
  }

  /** An unstopped mapped object between its timer and its next poll. */
  ghost predicate Due(s: State, o: int)
    requires o in s.objects
  {
    && o < s.nextId && (s.objects[o].timer.Some? ==> s.objects[o].timer.value < s.nextId)
    && s.objects[o].uri in s.subs && s.subs[s.objects[o].uri] == o && !Armed(s, o) && !Polling(s, o)
  }

  lemma PollKeeps(s: State, uri: string)
    requires Linked(s)
    requires (forall u :: UriRight(s, u)) && (forall t :: TimerRight(s, t)) && (forall r :: RunRight(s, r))
    requires forall o :: o in s.objects ==>
               if s.objects[o].uri == uri && !s.objects[o].stopped then Due(s, o) else ObjectRight(s, o)
    ensures Inv(Poll(s, uri))
  {
    var n, r0 := Poll(s, uri), s.nextId;
    if uri in s.subs && !s.objects[s.subs[uri]].stopped {
      assert UriRight(s, uri) && Due(s, s.subs[uri]);
    }
    forall u ensures UriRight(n, u) { assert UriRight(s, u); }
    forall t ensures TimerRight(n, t) { assert TimerRight(s, t); }
    forall r ensures RunRight(n, r) { assert RunRight(s, r) && RunRight(s, r0); }
    forall o ensures ObjectRight(n, o) {
      if o in s.objects {
        assert RunRight(s, r0);
        if uri in s.subs && s.subs[uri] == o && !s.objects[o].stopped {
          assert UriRight(s, uri);
          assert n.runs[r0].sub == o;
        } else if !s.objects[o].stopped {
          assert ObjectRight(s, o);
          PollingStays(s, n, o);
        } else {
          assert ObjectRight(s, o);
        }
      }
    }
  }

  /** The activations of `o` are the same in both states. */
  lemma PollingStays(s: State, n: State, o: int)
    requires forall r :: (r in s.runs && s.runs[r].sub == o) <==> (r in n.runs && n.runs[r].sub == o)
    ensures Polling(s, o) <==> Polling(n, o)
  {
    if r :| r in s.runs && s.runs[r].sub == o { assert r in n.runs; }
    if r :| r in n.runs && n.runs[r].sub == o { assert r in s.runs; }
  }

  lemma TimerFiresKeeps(s: State, t: int)
    requires Inv(s) && Linked(s) && t in s.timers
    ensures Inv(Next(s, TimerFires(t)))
  {
    var m, uri := s.(timers := s.timers - {t}), s.timers[t].uri;
    assert TimerRight(s, t);
    forall u ensures UriRight(m, u) { assert UriRight(s, u); }
    forall k ensures TimerRight(m, k) { assert TimerRight(s, k); }
    forall r ensures RunRight(m, r) { assert RunRight(s, r); }
    forall o | o in m.objects
      ensures if m.objects[o].uri == uri && !m.objects[o].stopped then Due(m, o) else ObjectRight(m, o)
    {
      assert ObjectRight(s, o);
      PollingStays(s, m, o);
    }
    PollKeeps(m, uri);
  }

  /** The map and the objects with a new object for `uri`, not yet polled. */
  function Renewed(s: State, uri: string): State {
    s.(objects := s.objects[s.nextId := Sub(uri, None, false, None)], subs := s.subs[uri := s.nextId],
       nextId := s.nextId + 1)
  }

  lemma RenewedObjects(s: State, uri: string, o: int)
    requires Inv(s) && Linked(s) && (uri in s.subs ==> s.objects[s.subs[uri]].stopped) && o in Renewed(s, uri).objects
    ensures var m := Renewed(s, uri);
            if m.objects[o].uri == uri && !m.objects[o].stopped then Due(m, o) else ObjectRight(m, o)
  {
    var m, o0 := Renewed(s, uri), s.nextId;
    if o == o0 {
      assert !Polling(m, o0) by {
        forall r | r in m.runs ensures m.runs[r].sub != o0 { assert RunRight(s, r) && ObjectRight(s, s.runs[r].sub); }
      }
    } else {
      assert ObjectRight(s, o);
      PollingStays(s, m, o);
    }
  }

  lemma RenewedRest(s: State, uri: string)
    requires Inv(s) && Linked(s) && (uri in s.subs ==> s.objects[s.subs[uri]].stopped)
    ensures var m := Renewed(s, uri);
            Linked(m) && (forall u :: UriRight(m, u)) && (forall t :: TimerRight(m, t)) && (forall r :: RunRight(m, r))
  {
    var m := Renewed(s, uri);
    assert ObjectRight(s, s.nextId);
    forall u ensures UriRight(m, u) { assert UriRight(s, u); }
    forall k ensures TimerRight(m, k) {
      assert TimerRight(s, k);
      if k in s.timers { assert ObjectRight(s, s.subs[s.timers[k].uri]); }
    }
    forall r ensures RunRight(m, r) { assert RunRight(s, r); }
  }

  lemma ResubscribeKeeps(s: State, uri: string)
    requires Inv(s) && Linked(s) && (uri in s.subs ==> s.objects[s.subs[uri]].stopped)
    ensures Inv(Resubscribe(s, uri))
  {
    var m := Renewed(s, uri);
    if uri in s.subs { assert ObjectRight(s, s.subs[uri]); }
    assert Resubscribe(s, uri) == Poll(m, uri);
    hide Inv, Linked, ObjectRight, UriRight, TimerRight, RunRight, Poll, Renewed, Resubscribe;
    RenewedRest(s, uri);
    forall o | o in m.objects
      ensures if m.objects[o].uri == uri && !m.objects[o].stopped then Due(m, o) else ObjectRight(m, o)
    {
      RenewedObjects(s, uri, o);
    }
    PollKeeps(m, uri);
  }

  lemma QuitKeeps(s: State, r: int)
    requires Inv(s) && Linked(s) && r in s.runs
    ensures Inv(Quit(s, r))
  {
    var n, o0 := Quit(s, r), s.runs[r].sub;
    assert RunRight(s, r) && ObjectRight(s, o0);
    assert !Armed(s, o0) by { if !s.objects[o0].stopped { assert Polling(s, o0); } }
    forall u ensures UriRight(n, u) { assert UriRight(s, u); }
    forall t ensures TimerRight(n, t) { assert TimerRight(s, t); }
    forall q ensures RunRight(n, q) { assert RunRight(s, q); }
    forall o ensures ObjectRight(n, o) {
      assert ObjectRight(s, o);
      if o != o0 { PollingStays(s, n, o); }
    }
  }

  lemma RearmKeeps(s: State, r: int, delay: real)
    requires Inv(s) && Linked(s) && r in s.runs && MIN_INTERVAL_MS <= delay <= MAX_INTERVAL_MS
    ensures Inv(Rearm(s, r, delay))
  {
    var n, o0, t0 := Rearm(s, r, delay), s.runs[r].sub, s.nextId;
    assert RunRight(s, r) && ObjectRight(s, o0) && TimerRight(s, t0);
    assert !Armed(s, o0) by { if !s.objects[o0].stopped { assert Polling(s, o0); } }
    forall u ensures UriRight(n, u) { assert UriRight(s, u); }
    forall t ensures TimerRight(n, t) { assert TimerRight(s, t); }
    forall q ensures RunRight(n, q) { assert RunRight(s, q); }
    forall o ensures ObjectRight(n, o) {
      assert ObjectRight(s, o);
      if o != o0 {
        PollingStays(s, n, o);
      } else {
        assert !Polling(n, o);
      }
    }
  }

  /** The object keeps its URI, its flag and its timer. */
  predicate SameControl(s: State, n: State, o: int) {
    && (o in n.objects <==> o in s.objects)
    && (o in s.objects ==>
          n.objects[o].uri == s.objects[o].uri && n.objects[o].stopped == s.objects[o].stopped
            && n.objects[o].timer == s.objects[o].timer)
  }

  /** A change that leaves maps, timers and flags alone, and activations to their objects. */
  lemma QuietChangeKeeps(s: State, n: State)
    requires Inv(s) && n.subs == s.subs && n.timers == s.timers && n.nextId == s.nextId
    requires forall o :: SameControl(s, n, o)
    requires n.runs.Keys == s.runs.Keys && forall r :: r in s.runs ==> n.runs[r].sub == s.runs[r].sub
    ensures Inv(n)
  {
    forall u ensures UriRight(n, u) {
      assert UriRight(s, u);
      if u in s.subs { assert SameControl(s, n, s.subs[u]); }
    }
    forall t ensures TimerRight(n, t) {
      assert TimerRight(s, t);
      if t in s.timers { assert SameControl(s, n, s.subs[s.timers[t].uri]); }
    }
    forall r ensures RunRight(n, r) {
      assert RunRight(s, r);
      if r in s.runs { assert SameControl(s, n, s.runs[r].sub); }
    }
    forall o ensures ObjectRight(n, o) {
      assert ObjectRight(s, o) && SameControl(s, n, o);
      PollingStays(s, n, o);
    }
  }

  lemma CatchKeeps(s: State, r: int, status: Option<int>, delay: real)
    requires Inv(s) && Linked(s) && r in s.runs && MIN_INTERVAL_MS <= delay <= MAX_INTERVAL_MS
    ensures Inv(Catch(s, r, status, delay))
  {
    hide Inv, Quit, Rearm;
    if IsPermanent(status) { QuitKeeps(s, r); } else { RearmKeeps(s, r, delay); }
  }

  lemma StoreKeeps(s: State, r: int, snapshot: Snapshot)
    requires Inv(s) && Linked(s) && r in s.runs
    ensures Inv(Store(s, r, snapshot))
  {
    hide Inv, Quit, Rearm, IsTerminal, ClampInterval;
    var o := s.runs[r].sub;
    var stored := s.(objects := s.objects[o := s.objects[o].(last := Some(snapshot.text))]);
    QuietChangeKeeps(s, stored);
    if IsTerminal(snapshot) { QuitKeeps(stored, r); } else { RearmKeeps(stored, r, ClampInterval(snapshot.seconds)); }
  }

  /** An activation of an object that was stopped ends without a trace. */
  lemma EndKeeps(s: State, r: int)
    requires Inv(s) && Linked(s) && r in s.runs && s.objects[s.runs[r].sub].stopped
    ensures Inv(s.(runs := s.runs - {r}))
  {
    assert Quit(s, r).objects == s.objects;
    assert Quit(s, r) == s.(runs := s.runs - {r});
    QuitKeeps(s, r);
  }

  lemma FetchedKeeps(s: State, r: int, snapshot: Snapshot)
    requires Inv(s) && Linked(s) && r in s.runs
    ensures Inv(Fetched(s, r, snapshot))
  {
    hide Inv, Store;
    var o := s.runs[r].sub;
    var sub := s.objects[o];
    if sub.stopped {
      EndKeeps(s, r);
    } else if sub.last.Some? && snapshot.text != sub.last.value {
      QuietChangeKeeps(s, Fetched(s, r, snapshot));
    } else {
      StoreKeeps(s, r, snapshot);
    }
  }

  lemma InvariantKept(s: State, e: Event)
    requires Inv(s) && Linked(s) && Enabled(s, e)
    ensures Inv(Next(s, e)) && Linked(Next(s, e))
  {
    hide Inv, Resubscribe, Stop, StopAll, Poll, Quit, Catch, Fetched, Store, ClampInterval;
    match e {
    case Subscribe(uri, isStatus) =>
      if isStatus && (uri !in s.subs || s.objects[s.subs[uri]].stopped) { ResubscribeKeeps(s, uri); }
    case Unsubscribe(uri) => StopKeeps(s, uri);
    case DisposeAll => StopAllKeeps(s);
    case TimerFires(t) => TimerFiresKeeps(s, t);
    case BackendSettles(r, Returns(degraded)) => if degraded { QuitKeeps(s, r); }
      else { QuietChangeKeeps(s, Next(s, e)); }
    case BackendSettles(r, Throws(status)) => CatchKeeps(s, r, status, DEFAULT_INTERVAL_MS);
    case FetchSettles(r, Returns(snapshot)) => FetchedKeeps(s, r, snapshot);
    case FetchSettles(r, Throws(status)) => CatchKeeps(s, r, status, DEFAULT_INTERVAL_MS);
    case SendSettles(r, Returns(_)) => StoreKeeps(s, r, s.runs[r].phase.snapshot);
    case SendSettles(r, Throws(status)) =>
      CatchKeeps(s, r, status, ClampInterval(s.runs[r].phase.snapshot.seconds));
    }
    InvLinked(Next(s, e));
  }

  // ---------------------------------------------------------------- runs

  /** The events lead from `s` to `t`. */
  ghost predicate Steps(s: State, events: seq<Event>, t: State)
    decreases |events|
  {
    if events == [] then t == s
    else
      var n := |events| - 1;
      exists m :: Steps(s, events[..n], m) && Linked(m) && Enabled(m, events[n]) && t == Next(m, events[n])
  }

  lemma {:induction false} StepsKeep(s: State, events: seq<Event>, t: State)
    requires Inv(s) && Steps(s, events, t)
    ensures Inv(t) && Linked(t)
    decreases |events|
  {
    hide Inv, Linked, Next, Enabled;
    InvLinked(s);
    if events != [] {
      var n := |events| - 1;
      var m :| Steps(s, events[..n], m) && Linked(m) && Enabled(m, events[n]) && t == Next(m, events[n]);
      StepsKeep(s, events[..n], m);
      InvariantKept(m, events[n]);
    }
  }

  lemma InitialInv()
    ensures Inv(INITIAL)
  {
  }
}
