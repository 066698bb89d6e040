/**
 What the status subscriptions do, as against what they keep: a subscription starts a watch, each event
 of a chain moves it on, and a watch ends for the three reasons there are and no other.
 */
module StatusProgress {
  import opened Prelude
  import opened StatusSubscriptions
  import opened StatusRuns

  /** The URI is mapped to an unstopped object of its own with exactly one continuation. */
  ghost predicate Watched(s: State, uri: string) {
    && uri in s.subs && s.subs[uri] in s.objects
    && var o := s.subs[uri];
       && s.objects[o].uri == uri && !s.objects[o].stopped && (Polling(s, o) <==> !Armed(s, o))
  }

  /** An unstopped object of the URI is all a watch needs. */
  lemma {:induction false} WatchedIffUnstopped(s: State, uri: string)
    requires Inv(s)
    ensures Watched(s, uri) <==> exists o :: o in s.objects && s.objects[o].uri == uri && !s.objects[o].stopped
  {
    if Watched(s, uri) { assert !s.objects[s.subs[uri]].stopped; }
    if o :| o in s.objects && s.objects[o].uri == uri && !s.objects[o].stopped {
      assert ObjectRight(s, o);
    }
  }

  /** Some activation that was not there before polls a new object, waiting for the backend first. */
  ghost predicate Begun(s: State, n: State, uri: string)
    requires uri in n.subs
  {
    var o := n.subs[uri];
    && o !in s.objects && n.objects == s.objects[o := Sub(uri, None, false, None)] && n.subs == s.subs[uri := o]
    && exists r :: r !in s.runs && n.runs == s.runs[r := Activation(o, AwaitBackend)]
  }

  /**
   After a subscription to a status URI it is watched, whatever went before. One that is watched already
   is left exactly as it is; otherwise a new object with nothing stored begins its first poll, and no
   other object is touched. Any other URI changes nothing.
   */
  lemma SubscribeWatches(s: State, uri: string)
    requires Inv(s) && Linked(s)
    ensures var n := Next(s, Subscribe(uri, true));
            && Watched(n, uri) && n.sent == s.sent
            && (Watched(s, uri) ==> n == s)
            && (!Watched(s, uri) ==> uri in n.subs && Begun(s, n, uri))
    ensures Next(s, Subscribe(uri, false)) == s
  {
    var n := Next(s, Subscribe(uri, true));
    InvariantKept(s, Subscribe(uri, true));
    assert UriRight(s, uri);
    if uri in s.subs { assert ObjectRight(s, s.subs[uri]); }
    if uri !in s.subs || s.objects[s.subs[uri]].stopped {
      var o, r := s.nextId, s.nextId + 1;
      assert ObjectRight(s, o) && RunRight(s, r);
      assert n.runs == s.runs[r := Activation(o, AwaitBackend)];
      assert n.subs[uri] == o && ObjectRight(n, o);
    }
  }

  /** The event is one of the three that stop the object: it is unsubscribed, all are, or its chain ends. */
  ghost predicate Stops(s: State, e: Event, o: int)
    requires Linked(s) && Enabled(s, e) && o in s.objects
  {
    || e == Unsubscribe(s.objects[o].uri) || e.DisposeAll?
    || (RunOf(e).Some? && s.runs[RunOf(e).value].sub == o && EndsChain(s, e))
  }

  /** A watched object stops for one of these reasons, and each of them does stop it. */
  lemma {:induction false} StopsExactlyWhen(s: State, e: Event, o: int)
    requires Inv(s) && Linked(s) && Enabled(s, e) && o in s.objects && !s.objects[o].stopped
    ensures o in Next(s, e).objects && (Next(s, e).objects[o].stopped <==> Stops(s, e, o))
  {
    assert ObjectRight(s, o);
    match e
    case BackendSettles(r, degraded) => SettlingStops(s, e, o);
    case FetchSettles(r, read) => SettlingStops(s, e, o);
    case SendSettles(r, sent) => SettlingStops(s, e, o);
    case DisposeAll => assert s.subs[s.objects[o].uri] in s.subs.Values;
    case Unsubscribe(uri) => assert UriRight(s, uri);
    case Subscribe(uri, isStatus) => assert ObjectRight(s, s.nextId);
    case TimerFires(t) =>
  }

  lemma SettlingStops(s: State, e: Event, o: int)
    requires Inv(s) && Linked(s) && Enabled(s, e) && o in s.objects && !s.objects[o].stopped && RunOf(e).Some?
    ensures o in Next(s, e).objects && (Next(s, e).objects[o].stopped <==> Stops(s, e, o))
  {
    hide IsTerminal, IsPermanent, ClampInterval, Inv, Catch, Store;
    match e
    case BackendSettles(r, degraded) =>
      if degraded.Throws? { CatchStops(s, r, degraded.status, DEFAULT_INTERVAL_MS); }
    case FetchSettles(r, read) =>
      if read.Throws? { CatchStops(s, r, read.status, DEFAULT_INTERVAL_MS); } else { StoreStops(s, r, read.value); }
    case SendSettles(r, sent) =>
      var snapshot := s.runs[r].phase.snapshot;
      StoreStops(s, r, snapshot);
      if sent.Throws? { CatchStops(s, r, sent.status, ClampInterval(snapshot.seconds)); }
  }

  lemma CatchStops(s: State, r: int, status: Option<int>, delay: real)
    requires Linked(s) && r in s.runs
    ensures var n, o := Catch(s, r, status, delay), s.runs[r].sub;
            && o in n.objects && (n.objects[o].stopped <==> s.objects[o].stopped || IsPermanent(status))
            && forall p :: p in s.objects && p != o ==> p in n.objects && n.objects[p] == s.objects[p]
  {
  }

  lemma StoreStops(s: State, r: int, snapshot: Snapshot)
    requires Linked(s) && r in s.runs
    ensures var n, o := Store(s, r, snapshot), s.runs[r].sub;
            && o in n.objects && (n.objects[o].stopped <==> s.objects[o].stopped || IsTerminal(snapshot))
            && forall p :: p in s.objects && p != o ==> p in n.objects && n.objects[p] == s.objects[p]
  {
    hide IsTerminal, ClampInterval;
  }

  /** The failure of a call, whichever of the three an activation was waiting for. */
  predicate FailsWith(e: Event, status: Option<int>) {
    match e
    case BackendSettles(_, degraded) => degraded == Throws(status)
    case FetchSettles(_, read) => read == Throws(status)
    case SendSettles(_, sent) => sent == Throws(status)
    case _ => false
  }

  /** A failed call ends the watch for the five permanent statuses and for no other failure. */
  lemma FailureEndsIffPermanent(s: State, e: Event, status: Option<int>)
    requires Inv(s) && Linked(s) && Enabled(s, e) && FailsWith(e, status)
    requires !s.objects[s.runs[RunOf(e).value].sub].stopped
    ensures var o := s.runs[RunOf(e).value].sub;
            && o in Next(s, e).objects
            && (Next(s, e).objects[o].stopped <==> status.Some? && status.value in {403, 404, 409, 422, 501})
  {
    StopsExactlyWhen(s, e, s.runs[RunOf(e).value].sub);
    hide Inv, Next;
  }

  /** A stored snapshot ends the watch exactly when it carries a terminal status or one of the six final states. */
  lemma StoredSnapshotEndsIffTerminal(s: State, e: Event, snapshot: Snapshot)
    requires Inv(s) && Linked(s) && Enabled(s, e) && RunOf(e).Some?
    requires !s.objects[s.runs[RunOf(e).value].sub].stopped
    requires (e.SendSettles? && e.sent.Returns? && s.runs[e.run].phase.snapshot == snapshot)
             || (e.FetchSettles? && e.read == Returns(snapshot)
                 && (var last := s.objects[s.runs[e.run].sub].last; last.None? || last.value == snapshot.text))
    ensures var o := s.runs[RunOf(e).value].sub;
            && o in Next(s, e).objects
            && (Next(s, e).objects[o].stopped <==>
                || snapshot.terminalStatus.Some? || snapshot.state == Some("completed")
                || snapshot.state == Some("failed") || snapshot.state == Some("cancelled")
                || snapshot.state == Some("canceled") || snapshot.state == Some("terminated")
                || snapshot.state == Some("timed_out"))
  {
    StopsExactlyWhen(s, e, s.runs[RunOf(e).value].sub);
    hide Inv, Next;
  }

  /** None of the events of the run, each in the state it meets, stops what watches the URI. */
  ghost predicate Unbroken(s: State, events: seq<Event>, t: State, uri: string)
    decreases |events|
  {
    if events == [] then t == s
    else
      var n := |events| - 1;
      exists m :: Unbroken(s, events[..n], m, uri) && Linked(m) && Enabled(m, events[n]) && t == Next(m, events[n])
               && (uri in m.subs ==> !Stops(m, events[n], m.subs[uri]))
  }

  /** From its subscription on a URI stays watched, by one and the same object, until one of these reasons. */
  lemma {:induction false} StaysWatched(s: State, events: seq<Event>, t: State, uri: string)
    requires Inv(s) && Linked(s) && Watched(s, uri) && Unbroken(s, events, t, uri)
    ensures Inv(t) && Linked(t) && Watched(t, uri) && t.subs[uri] == s.subs[uri]
    decreases |events|
  {
    if events != [] {
      hide Inv, Linked, Next, Enabled, Stops;
      var n := |events| - 1;
      var m :| Unbroken(s, events[..n], m, uri) && Linked(m) && Enabled(m, events[n]) && t == Next(m, events[n])
        && (uri in m.subs ==> !Stops(m, events[n], m.subs[uri]));
      StaysWatched(s, events[..n], m, uri);
      var o := m.subs[uri];
      InvariantKept(m, events[n]);
      StopsExactlyWhen(m, events[n], o);
      StopIsForever(m, events[n], o);
      UnstoppedIsMapped(t, o);
    }
  }

  lemma UnstoppedIsMapped(s: State, o: int)
    requires Inv(s) && o in s.objects && !s.objects[o].stopped
    ensures Watched(s, s.objects[o].uri) && s.subs[s.objects[o].uri] == o
  {
    assert ObjectRight(s, o);
  }

  // ---------------------------------------------------------------- what each event of a chain does

  /** A timer that fires starts the next poll of the object it was set for. */
  lemma TimerPolls(s: State, t: int)
    requires Inv(s) && Linked(s) && t in s.timers
    ensures var uri, n := s.timers[t].uri, Next(s, TimerFires(t));
            && uri in s.subs && t !in n.timers
            && exists r :: r !in s.runs && n.runs == s.runs[r := Activation(s.subs[uri], AwaitBackend)]
  {
    assert TimerRight(s, t);
    assert ObjectRight(s, s.subs[s.timers[t].uri]) && RunRight(s, s.nextId);
    var n := Next(s, TimerFires(t));
    assert n.runs == s.runs[s.nextId := Activation(s.subs[s.timers[t].uri], AwaitBackend)];
  }

  /** A healthy backend is asked for the status, by the same activation. */
  lemma HealthyBackendIsAsked(s: State, r: int)
    requires Linked(s) && Enabled(s, BackendSettles(r, Returns(false)))
    ensures Next(s, BackendSettles(r, Returns(false))) == s.(runs := s.runs[r := Activation(s.runs[r].sub, Fetching)])
  {
  }

  /**
   A status that was read for a watched object is announced when something else is stored, and stored
   at once otherwise: the first read, which is the baseline, and an unchanged one announce nothing.
   */
  lemma ReadIsAnnouncedOrStored(s: State, r: int, snapshot: Snapshot)
    requires Inv(s) && Linked(s) && Enabled(s, FetchSettles(r, Returns(snapshot)))
    requires !s.objects[s.runs[r].sub].stopped
    ensures var n, o := Next(s, FetchSettles(r, Returns(snapshot))), s.runs[r].sub;
            var stored := s.objects[o].last;
            && o in n.objects
            && if stored.Some? && stored.value != snapshot.text
               then n.sent == s.sent + [Note(o, s.objects[o].uri, stored, snapshot.text)]
                 && n.objects[o].last == stored && r in n.runs && n.runs[r] == Activation(o, Sending(snapshot))
               else n.sent == s.sent && n.objects[o].last == Some(snapshot.text) && r !in n.runs
  {
    hide IsTerminal, ClampInterval;
  }

  /** What was announced is stored once it has been sent, and only then. */
  lemma SentIsStored(s: State, r: int, sent: Outcome<()>)
    requires Inv(s) && Linked(s) && Enabled(s, SendSettles(r, sent))
    ensures var n, o := Next(s, SendSettles(r, sent)), s.runs[r].sub;
            && o in n.objects && n.sent == s.sent && r !in n.runs
            && n.objects[o].last == if sent.Returns? then Some(s.runs[r].phase.snapshot.text) else s.objects[o].last
  {
    hide IsTerminal, ClampInterval;
  }

  /** The cadence the next poll keeps: as the snapshot advises, or the default when none was read. */
  function Advised(s: State, e: Event): real
    requires Enabled(s, e)
  {
    match e
    case FetchSettles(_, Returns(snapshot)) => ClampInterval(snapshot.seconds)
    case SendSettles(r, _) => ClampInterval(s.runs[r].phase.snapshot.seconds)
    case _ => DEFAULT_INTERVAL_MS
  }

  /** When an activation of a watched object ends without ending the chain, the next poll comes after that delay. */
  lemma NextPollIsAdvised(s: State, e: Event)
    requires Inv(s) && Linked(s) && Enabled(s, e) && RunOf(e).Some? && !EndsChain(s, e)
    requires !s.objects[s.runs[RunOf(e).value].sub].stopped && RunOf(e).value !in Next(s, e).runs
    ensures var n, o := Next(s, e), s.runs[RunOf(e).value].sub;
            && o in n.objects && Armed(n, o)
            && n.timers[n.objects[o].timer.value] == Timer(s.objects[o].uri, Advised(s, e))
  {
    OtherwiseKeepsWatching(s, e);
    hide ClampInterval, Inv;
  }
}
