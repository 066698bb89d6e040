/**
 What every run of the status subscriptions guarantees: one watch per URI, notifications exactly about
 changes, silence after a stop, and chains that end for good or go on.
 */
module StatusRuns {
  import opened Prelude
  import opened StatusSubscriptions

  /** In every run there is at most one unstopped subscription per URI, and it is the mapped one. */
  lemma {:induction false} OneWatchPerUri(events: seq<Event>, s: State, o: int)
    requires Steps(INITIAL, events, s) && o in s.objects && !s.objects[o].stopped
    ensures s.objects[o].uri in s.subs && s.subs[s.objects[o].uri] == o
    ensures forall p :: p in s.objects && !s.objects[p].stopped && s.objects[p].uri == s.objects[o].uri ==> p == o
  {
    InitialInv();
    StepsKeep(INITIAL, events, s);
    assert ObjectRight(s, o);
    forall p | p in s.objects && !s.objects[p].stopped && s.objects[p].uri == s.objects[o].uri ensures p == o {
      assert ObjectRight(s, p);
    }
  }

  /** And it has exactly one continuation: one activation and no timer, or one timer and no activation. */
  lemma {:induction false} OneContinuation(events: seq<Event>, s: State, o: int)
    requires Steps(INITIAL, events, s) && o in s.objects
    ensures !s.objects[o].stopped ==> (Polling(s, o) <==> !Armed(s, o))
    ensures s.objects[o].stopped ==> !Armed(s, o)
    ensures forall q, r :: q in s.runs && r in s.runs && s.runs[q].sub == s.runs[r].sub == o ==> q == r
    ensures forall t :: t in s.timers && s.timers[t].uri == s.objects[o].uri && !s.objects[o].stopped ==>
              s.objects[o].timer == Some(t)
  {
    InitialInv();
    StepsKeep(INITIAL, events, s);
    assert ObjectRight(s, o);
    forall q, r | q in s.runs && r in s.runs && s.runs[q].sub == s.runs[r].sub == o ensures q == r {
      assert RunRight(s, q);
    }
    forall t | t in s.timers && s.timers[t].uri == s.objects[o].uri && !s.objects[o].stopped
      ensures s.objects[o].timer == Some(t)
    {
      assert TimerRight(s, t);
    }
  }

  /** Every scheduled poll is for an unstopped subscription and waits between the two bounds. */
  lemma {:induction false} TimersAreBounded(events: seq<Event>, s: State, t: int)
    requires Steps(INITIAL, events, s) && t in s.timers
    ensures MIN_INTERVAL_MS <= s.timers[t].delay <= MAX_INTERVAL_MS
    ensures s.timers[t].uri in s.subs && s.subs[s.timers[t].uri] in s.objects
            && !s.objects[s.subs[s.timers[t].uri]].stopped
  {
    InitialInv();
    StepsKeep(INITIAL, events, s);
    assert TimerRight(s, t);
    assert ObjectRight(s, s.subs[s.timers[t].uri]);
  }

  // ---------------------------------------------------------------- notifications

  /** The object of an activation, as the map and the flag see it, and what it had stored. */
  ghost predicate Justified(s: State, note: Note) {
    && note.sub in s.objects && !s.objects[note.sub].stopped && s.objects[note.sub].uri == note.uri
    && note.uri in s.subs && s.subs[note.uri] == note.sub
    && note.before == s.objects[note.sub].last && note.before.Some? && note.before.value != note.text
  }

  /**
   A step begins at most one notification: for a watched object, about a snapshot that differs from the
   stored one.
   */
  lemma NotesAreJustified(s: State, e: Event)
    requires Inv(s) && Linked(s) && Enabled(s, e)
    ensures var n := Next(s, e);
            n.sent == s.sent || (|n.sent| == |s.sent| + 1 && s.sent <= n.sent && Justified(s, n.sent[|s.sent|]))
  {
    hide IsTerminal, ClampInterval;
    if e.FetchSettles? && e.read.Returns? {
      var o := s.runs[e.run].sub;
      assert ObjectRight(s, o);
    }
  }

  /**
   What no step undoes: an object keeps its URI, once stopped it stays stopped, and an activation keeps
   its object.
   */
  ghost predicate Carries(s: State, n: State) {
    && (forall o :: o in s.objects ==> CarriesObject(s, n, o))
    && (forall r :: r in s.runs && r in n.runs ==> n.runs[r].sub == s.runs[r].sub)
  }

  ghost predicate CarriesObject(s: State, n: State, o: int)
    requires o in s.objects
  {
    o in n.objects && n.objects[o].uri == s.objects[o].uri && (s.objects[o].stopped ==> n.objects[o].stopped)
  }

  lemma EndingsCarry(s: State, r: int, status: Option<int>, delay: real)
    requires Linked(s) && r in s.runs
    ensures Carries(s, Quit(s, r)) && Carries(s, Rearm(s, r, delay)) && Carries(s, Catch(s, r, status, delay))
  {
  }

  lemma FetchedCarries(s: State, r: int, snapshot: Snapshot)
    requires Linked(s) && r in s.runs
    ensures Carries(s, Store(s, r, snapshot)) && Carries(s, Fetched(s, r, snapshot))
  {
    var o := s.runs[r].sub;
    var stored := s.(objects := s.objects[o := s.objects[o].(last := Some(snapshot.text))]);
    hide IsTerminal, ClampInterval, Quit, Rearm;
    EndingsCarry(stored, r, None, ClampInterval(snapshot.seconds));
  }

  lemma WatchingCarries(s: State, uri: string)
    requires Inv(s) && Linked(s)
    ensures Carries(s, Poll(s, uri)) && Carries(s, Resubscribe(s, uri))
  {
    assert RunRight(s, s.nextId) && RunRight(s, s.nextId + 1) && ObjectRight(s, s.nextId);
  }

  lemma StepCarries(s: State, e: Event)
    requires Inv(s) && Linked(s) && Enabled(s, e)
    ensures Carries(s, Next(s, e))
  {
    hide IsTerminal, ClampInterval, Quit, Rearm, Catch, Store, Fetched, Resubscribe, Poll;
    match e
    case Subscribe(uri, isStatus) => WatchingCarries(s, uri);
    case TimerFires(t) =>
      var m, uri := s.(timers := s.timers - {t}), s.timers[t].uri;
      PollCarries(s, m, uri);
    case BackendSettles(r, degraded) =>
      EndingsCarry(s, r, if degraded.Throws? then degraded.status else None, DEFAULT_INTERVAL_MS);
    case FetchSettles(r, read) =>
      EndingsCarry(s, r, if read.Throws? then read.status else None, DEFAULT_INTERVAL_MS);
      if read.Returns? { FetchedCarries(s, r, read.value); }
    case SendSettles(r, sent) =>
      var snapshot := s.runs[r].phase.snapshot;
      EndingsCarry(s, r, if sent.Throws? then sent.status else None, ClampInterval(snapshot.seconds));
      FetchedCarries(s, r, snapshot);
    case _ =>
  }

  lemma PollCarries(s: State, m: State, uri: string)
    requires Inv(s) && Linked(s) && Linked(m) && m.objects == s.objects && m.subs == s.subs && m.runs == s.runs
             && m.nextId == s.nextId
    ensures Carries(s, Poll(m, uri))
  {
    assert RunRight(s, s.nextId);
  }

  lemma StopIsForever(s: State, e: Event, o: int)
    requires Inv(s) && Linked(s) && Enabled(s, e) && o in s.objects
    ensures var n := Next(s, e);
            o in n.objects && n.objects[o].uri == s.objects[o].uri && (s.objects[o].stopped ==> n.objects[o].stopped)
  {
    hide Inv, Linked, Next, Enabled;
    StepCarries(s, e);
    assert CarriesObject(s, Next(s, e), o);
  }

  /** `t` continues `s` with no notification for `o`. */
  ghost predicate SilentFor(s: State, t: State, o: int) {
    && s.sent <= t.sent
    && (forall k :: |s.sent| <= k < |t.sent| ==> t.sent[k].sub != o)
  }

  /** Once an object is stopped its chain begins no further notification, whatever was in flight. */
  lemma {:induction false} StoppedSendsNothing(s: State, events: seq<Event>, t: State, o: int)
    requires Inv(s) && Steps(s, events, t) && o in s.objects && s.objects[o].stopped
    ensures o in t.objects && t.objects[o].stopped && SilentFor(s, t, o)
    decreases |events|
  {
    hide Inv, Linked, Next, Enabled;
    if events != [] {
      var n := |events| - 1;
      var m :| Steps(s, events[..n], m) && Linked(m) && Enabled(m, events[n]) && t == Next(m, events[n]);
      StoppedSendsNothing(s, events[..n], m, o);
      StepsKeep(s, events[..n], m);
      StopIsForever(m, events[n], o);
      NotesAreJustified(m, events[n]);
    }
  }

  /** Nobody watches `uri`: it is not mapped, or mapped to a stopped object. */
  ghost predicate Unwatched(s: State, uri: string) {
    forall o :: o in s.objects && s.objects[o].uri == uri ==> s.objects[o].stopped
  }

  /** Only a status subscription makes an object. */
  lemma NewObject(s: State, e: Event, o: int)
    requires Linked(s) && Enabled(s, e) && o !in s.objects && o in Next(s, e).objects
    ensures e == Subscribe(Next(s, e).objects[o].uri, true)
  {
    hide IsTerminal, ClampInterval;
  }

  lemma UnwatchedStays(s: State, e: Event, uri: string)
    requires Inv(s) && Linked(s) && Enabled(s, e) && Unwatched(s, uri) && e != Subscribe(uri, true)
    ensures Unwatched(Next(s, e), uri)
  {
    hide Inv, Linked, Next, Enabled;
    var n := Next(s, e);
    forall o | o in n.objects && n.objects[o].uri == uri ensures n.objects[o].stopped {
      if o in s.objects { StopIsForever(s, e, o); } else { NewObject(s, e, o); }
    }
  }

  lemma UnsubscribeUnwatches(s: State, uri: string)
    requires Inv(s) && Linked(s)
    ensures Unwatched(Next(s, Unsubscribe(uri)), uri)
    ensures forall u :: Unwatched(Next(s, DisposeAll), u)
  {
    var n, d := Stop(s, uri), StopAll(s);
    forall o | o in n.objects && n.objects[o].uri == uri ensures n.objects[o].stopped { assert ObjectRight(s, o); }
    forall u ensures Unwatched(d, u) {
      forall o | o in d.objects && d.objects[o].uri == u ensures d.objects[o].stopped {
        assert ObjectRight(s, o);
        if !s.objects[o].stopped { assert o in s.subs.Values by { assert s.subs[s.objects[o].uri] == o; } }
      }
    }
  }

  /**
   From the moment a URI is unsubscribed, or everything disposed, nothing is sent or scheduled for it
   until it is subscribed again.
   */
  lemma {:induction false} UnwatchedIsQuiet(s: State, events: seq<Event>, t: State, uri: string)
    requires Inv(s) && Steps(s, events, t) && Unwatched(s, uri) && Subscribe(uri, true) !in events
    ensures Unwatched(t, uri) && s.sent <= t.sent
    ensures forall k :: |s.sent| <= k < |t.sent| ==> t.sent[k].uri != uri
    ensures forall r :: r in t.timers ==> t.timers[r].uri != uri
    decreases |events|
  {
    hide Linked, Next, Enabled;
    StepsKeep(s, events, t);
    if events != [] {
      var n := |events| - 1;
      var m :| Steps(s, events[..n], m) && Linked(m) && Enabled(m, events[n]) && t == Next(m, events[n]);
      UnwatchedIsQuiet(s, events[..n], m, uri);
      StepsKeep(s, events[..n], m);
      assert events[n] in events;
      UnwatchedStays(m, events[n], uri);
      NotesAreJustified(m, events[n]);
    }
    NoTimerUnwatched(t, uri);
  }

  lemma NoTimerUnwatched(s: State, uri: string)
    requires Inv(s) && Unwatched(s, uri)
    ensures forall r :: r in s.timers ==> s.timers[r].uri != uri
  {
    forall r | r in s.timers ensures s.timers[r].uri != uri {
      assert TimerRight(s, r);
      var o := s.subs[s.timers[r].uri];
      assert ObjectRight(s, o) && UriRight(s, s.timers[r].uri);
    }
  }

  /** Every notification of a run was about a change of the stored snapshot; the first read is never one. */
  lemma {:induction false} NotesAreChanges(events: seq<Event>, s: State, k: int)
    requires Steps(INITIAL, events, s) && 0 <= k < |s.sent|
    ensures s.sent[k].before.Some? && s.sent[k].before.value != s.sent[k].text
    decreases |events|
  {
    hide Inv, Linked, Next, Enabled;
    if events != [] {
      var n := |events| - 1;
      var m :| Steps(INITIAL, events[..n], m) && Linked(m) && Enabled(m, events[n]) && s == Next(m, events[n]);
      InitialInv();
      StepsKeep(INITIAL, events[..n], m);
      NotesAreJustified(m, events[n]);
      if k < |m.sent| { NotesAreChanges(events[..n], m, k); }
    }
  }

  /** A notification for object `o` about `text` was begun. */
  ghost predicate Announced(s: State, o: int, text: string) {
    exists k :: 0 <= k < |s.sent| && s.sent[k].sub == o && s.sent[k].text == text
  }

  /** What is being sent was announced. */
  ghost predicate Noted(s: State) {
    forall r :: r in s.runs && s.runs[r].phase.Sending? ==> Announced(s, s.runs[r].sub, s.runs[r].phase.snapshot.text)
  }

  lemma AnnouncedStays(s: State, t: State, o: int, text: string)
    requires Announced(s, o, text) && s.sent <= t.sent
    ensures Announced(t, o, text)
  {
    var k :| 0 <= k < |s.sent| && s.sent[k].sub == o && s.sent[k].text == text;
    assert t.sent[k] == s.sent[k];
  }

  lemma EndingsSendNothing(s: State, r: int, status: Option<int>, delay: real, snapshot: Snapshot)
    requires Linked(s) && r in s.runs
    ensures Quit(s, r).runs == s.runs - {r} && Catch(s, r, status, delay).runs == s.runs - {r}
            && Store(s, r, snapshot).runs == s.runs - {r}
  {
  }

  lemma SendingBegins(s: State, e: Event, r: int)
    requires Inv(s) && Linked(s) && Enabled(s, e) && r in Next(s, e).runs && Next(s, e).runs[r].phase.Sending?
    requires !(r in s.runs && s.runs[r] == Next(s, e).runs[r])
    ensures var n := Next(s, e);
            && n.sent != [] && n.sent[|n.sent| - 1].sub == n.runs[r].sub
            && n.sent[|n.sent| - 1].text == n.runs[r].phase.snapshot.text
  {
    hide IsTerminal, ClampInterval, Inv, Quit, Rearm, Catch, Store;
    match e
    case BackendSettles(q, degraded) =>
      EndingsSendNothing(s, q, if degraded.Throws? then degraded.status else None, DEFAULT_INTERVAL_MS,
                         Snapshot("", None, None, None));
    case FetchSettles(q, read) =>
      EndingsSendNothing(s, q, if read.Throws? then read.status else None, DEFAULT_INTERVAL_MS,
                         if read.Returns? then read.value else Snapshot("", None, None, None));
    case SendSettles(q, sent) =>
      var snapshot := s.runs[q].phase.snapshot;
      EndingsSendNothing(s, q, if sent.Throws? then sent.status else None, ClampInterval(snapshot.seconds), snapshot);
    case _ =>
  }

  lemma NotedKept(s: State, e: Event)
    requires Inv(s) && Linked(s) && Enabled(s, e) && Noted(s)
    ensures Noted(Next(s, e))
  {
    hide Inv, Linked, Next, Enabled;
    var n := Next(s, e);
    NotesAreJustified(s, e);
    forall r | r in n.runs && n.runs[r].phase.Sending?
      ensures Announced(n, n.runs[r].sub, n.runs[r].phase.snapshot.text)
    {
      if r in s.runs && s.runs[r] == n.runs[r] {
        AnnouncedStays(s, n, s.runs[r].sub, s.runs[r].phase.snapshot.text);
      } else {
        SendingBegins(s, e, r);
      }
    }
  }

  lemma {:induction false} NotedInRuns(events: seq<Event>, s: State)
    requires Steps(INITIAL, events, s)
    ensures Inv(s) && Linked(s) && Noted(s)
    decreases |events|
  {
    hide Inv, Linked, Next, Enabled;
    InitialInv();
    StepsKeep(INITIAL, events, s);
    if events != [] {
      var n := |events| - 1;
      var m :| Steps(INITIAL, events[..n], m) && Linked(m) && Enabled(m, events[n]) && s == Next(m, events[n]);
      NotedInRuns(events[..n], m);
      NotedKept(m, events[n]);
    }
  }

  /** A stored snapshot is replaced only by an equal one, or by one that was announced. */
  lemma StoresWhatWasAnnounced(s: State, e: Event, o: int)
    requires Inv(s) && Linked(s) && Enabled(s, e) && Noted(s) && o in s.objects
    requires o in Next(s, e).objects && s.objects[o].last.Some?
    ensures var after := Next(s, e).objects[o].last;
            after == s.objects[o].last || (after.Some? && Announced(s, o, after.value))
  {
    hide IsTerminal, ClampInterval, Announced, Quit, Rearm, Catch;
    assert ObjectRight(s, s.nextId);
    match e
    case BackendSettles(r, degraded) =>
      EndingsKeepLast(s, r, if degraded.Throws? then degraded.status else None, DEFAULT_INTERVAL_MS);
    case FetchSettles(r, read) =>
      EndingsKeepLast(s, r, if read.Throws? then read.status else None, DEFAULT_INTERVAL_MS);
      if read.Returns? { StoringSetsLast(s, r, read.value); }
    case SendSettles(r, sent) =>
      var snapshot := s.runs[r].phase.snapshot;
      EndingsKeepLast(s, r, if sent.Throws? then sent.status else None, ClampInterval(snapshot.seconds));
      StoringSetsLast(s, r, snapshot);
    case _ => hide Store, Fetched;
  }

  lemma EndingsKeepLast(s: State, r: int, status: Option<int>, delay: real)
    requires Linked(s) && r in s.runs
    ensures forall o :: o in s.objects ==> o in Quit(s, r).objects && Quit(s, r).objects[o].last == s.objects[o].last
    ensures forall o :: o in s.objects ==>
              o in Catch(s, r, status, delay).objects && Catch(s, r, status, delay).objects[o].last == s.objects[o].last
  {
  }

  lemma StoringSetsLast(s: State, r: int, snapshot: Snapshot)
    requires Linked(s) && r in s.runs
    ensures forall o :: o in s.objects ==>
              && o in Store(s, r, snapshot).objects
              && Store(s, r, snapshot).objects[o].last ==
                 (if o == s.runs[r].sub then Some(snapshot.text) else s.objects[o].last)
  {
  }

  /** Between any two points of a run, if the stored snapshot of a subscription differs, the later one was announced. */
  lemma {:induction false} NoChangeGoesUnannounced(before: seq<Event>, s: State, events: seq<Event>, t: State, o: int)
    requires Steps(INITIAL, before, s) && Steps(s, events, t) && o in s.objects && s.objects[o].last.Some?
    ensures Inv(t) && Linked(t) && Noted(t) && o in t.objects && t.objects[o].last.Some?
    ensures t.objects[o].last == s.objects[o].last || Announced(t, o, t.objects[o].last.value)
    decreases |events|
  {
    hide Inv, Linked, Next, Enabled, Noted, Announced;
    if events == [] {
      NotedInRuns(before, s);
    } else {
      var n := |events| - 1;
      var m :| Steps(s, events[..n], m) && Linked(m) && Enabled(m, events[n]) && t == Next(m, events[n]);
      NoChangeGoesUnannounced(before, s, events[..n], m, o);
      InvariantKept(m, events[n]);
      NotedKept(m, events[n]);
      StopIsForever(m, events[n], o);
      StoresWhatWasAnnounced(m, events[n], o);
      NotesAreJustified(m, events[n]);
      if Announced(m, o, t.objects[o].last.value) { AnnouncedStays(m, t, o, t.objects[o].last.value); }
    }
  }

  // ---------------------------------------------------------------- how a chain ends

  /** The event settles an activation for good: degraded, a permanent failure, or a terminal snapshot stored. */
  predicate EndsChain(s: State, e: Event)
    requires Linked(s) && Enabled(s, e)
  {
    match e
    case BackendSettles(_, Returns(degraded)) => degraded
    case BackendSettles(_, Throws(status)) => IsPermanent(status)
    case FetchSettles(r, Returns(snapshot)) =>
      var sub := s.objects[s.runs[r].sub];
      sub.stopped || (IsTerminal(snapshot) && (sub.last.None? || sub.last.value == snapshot.text))
    case FetchSettles(_, Throws(status)) => IsPermanent(status)
    case SendSettles(r, Returns(_)) => IsTerminal(s.runs[r].phase.snapshot)
    case SendSettles(_, Throws(status)) => IsPermanent(status)
    case _ => false
  }

  function RunOf(e: Event): Option<int> {
    match e
    case BackendSettles(r, _) => Some(r)
    case FetchSettles(r, _) => Some(r)
    case SendSettles(r, _) => Some(r)
    case _ => None
  }

  /** The object is stopped and nothing is left that could continue its chain. */
  ghost predicate Over(s: State, o: int) {
    o in s.objects && s.objects[o].stopped && !Armed(s, o) && !Polling(s, o)
  }

  lemma EndingEvents(s: State, e: Event)
    requires Inv(s) && Linked(s) && Enabled(s, e) && EndsChain(s, e)
    ensures Over(Next(s, e), s.runs[RunOf(e).value].sub)
  {
    hide ClampInterval;
    var r := RunOf(e).value;
    var o, n := s.runs[r].sub, Next(s, e);
    InvariantKept(s, e);
    assert RunRight(s, r) && n.runs == s.runs - {r};
    assert n.objects[o].stopped;
    assert ObjectRight(n, o);
  }

  lemma OverStays(s: State, e: Event, o: int)
    requires Inv(s) && Linked(s) && Enabled(s, e) && Over(s, o)
    ensures Over(Next(s, e), o)
  {
    var n := Next(s, e);
    hide Next, Enabled;
    StepCarries(s, e);
    assert CarriesObject(s, n, o);
    InvariantKept(s, e);
    assert ObjectRight(n, o);
    forall r | r in n.runs ensures n.runs[r].sub != o {
      if r !in s.runs { NewActivation(s, e, r); }
    }
  }

  /** A new activation belongs to an object that is not stopped. */
  lemma NewActivation(s: State, e: Event, r: int)
    requires Inv(s) && Linked(s) && Enabled(s, e) && r !in s.runs && r in Next(s, e).runs
    ensures var o := Next(s, e).runs[r].sub; o !in s.objects || !s.objects[o].stopped
  {
    hide IsTerminal, ClampInterval;
    assert ObjectRight(s, s.nextId);
  }

  /**
   A degraded backend, a permanent failure or a terminal snapshot ends the chain: no timer and no
   activation ever after.
   */
  lemma {:induction false} EndedChainsStayOver(s: State, e: Event, events: seq<Event>, t: State)
    requires Inv(s) && Linked(s) && Enabled(s, e) && EndsChain(s, e) && Steps(Next(s, e), events, t)
    ensures Over(t, s.runs[RunOf(e).value].sub)
    decreases |events|
  {
    var first, o := Next(s, e), s.runs[RunOf(e).value].sub;
    hide Inv, Linked, Next, Enabled, EndsChain, Over;
    InvariantKept(s, e);
    if events == [] {
      EndingEvents(s, e);
    } else {
      var n := |events| - 1;
      var m :| Steps(first, events[..n], m) && Linked(m) && Enabled(m, events[n]) && t == Next(m, events[n]);
      EndedChainsStayOver(s, e, events[..n], m);
      StepsKeep(first, events[..n], m);
      OverStays(m, events[n], o);
    }
  }

  /**
   Any other settling of an unstopped object's activation leaves it watched: still polling, or with its
   next poll scheduled.
   */
  lemma OtherwiseKeepsWatching(s: State, e: Event)
    requires Inv(s) && Linked(s) && Enabled(s, e) && RunOf(e).Some? && !EndsChain(s, e)
    requires !s.objects[s.runs[RunOf(e).value].sub].stopped
    ensures var n, o := Next(s, e), s.runs[RunOf(e).value].sub;
            o in n.objects && !n.objects[o].stopped && (Polling(n, o) <==> !Armed(n, o))
    ensures RunOf(e).value !in Next(s, e).runs ==> Armed(Next(s, e), s.runs[RunOf(e).value].sub)
  {
    hide ClampInterval;
    var r := RunOf(e).value;
    var n, o := Next(s, e), s.runs[r].sub;
    InvariantKept(s, e);
    assert RunRight(s, r) && ObjectRight(n, o);
    assert o in n.objects && !n.objects[o].stopped;
    if r !in n.runs {
      assert n.runs == s.runs - {r};
    }
  }
}
