/**
 The closure state of the registration, changed in place by the handlers, the timer callback and the
 settlements of a poll. Each method is proved to take exactly the step `StatusSubscriptions` describes.
 */
module StatusWatches {
  import opened Prelude
  import opened StatusSubscriptions

  /** The URIs of `us` stopped one after the other. */
  ghost function StopEach(s: State, us: set<string>): State
    requires Linked(s) && us <= s.subs.Keys
  {
    s.(objects := map o | o in s.objects ::
                    if (exists u :: u in us && s.subs[u] == o) then Halt(s.objects[o]) else s.objects[o],
       timers := s.timers - (set u | u in us && s.objects[s.subs[u]].timer.Some? :: s.objects[s.subs[u]].timer.value),
       subs := s.subs - us)
  }

  lemma StopOneMore(s: State, us: set<string>, u: string)
    requires Linked(s) && us <= s.subs.Keys && u in s.subs && u !in us
    ensures Linked(StopEach(s, us)) && Stop(StopEach(s, us), u) == StopEach(s, us + {u})
    ensures Linked(StopEach(s, us + {u}))
  {
    var a, b := Stop(StopEach(s, us), u), StopEach(s, us + {u});
    assert a.subs == b.subs;
    forall o | o in s.objects ensures a.objects[o] == b.objects[o] {
      if o == s.subs[u] { assert u in us + {u}; }
      if w :| w in us && s.subs[w] == o { assert w in us + {u}; }
    }
    assert a.objects == b.objects;
    assert a.timers == b.timers;
  }

  lemma StopEachIsAll(s: State)
    requires Linked(s)
    ensures StopEach(s, s.subs.Keys) == StopAll(s)
  {
    forall o | o in s.objects ensures o in s.subs.Values <==> exists u :: u in s.subs.Keys && s.subs[u] == o {
      if o in s.subs.Values { var u :| u in s.subs && s.subs[u] == o; assert u in s.subs.Keys; }
    }
  }

  /**
   The closure state of the registration: handlers, the timer callback and the settlements of a poll
   change it in place.
   */
  class StatusWatch {
    var subs: map<string, int>
    var objects: map<int, Sub>
    var timers: map<int, Timer>
    var runs: map<int, Activation>
    var sent: seq<Note>
    var nextId: int

    ghost function Current(): State
      reads this
    {
      State(subs, objects, timers, runs, sent, nextId)
    }

    constructor ()
      ensures Current() == INITIAL
    {
      subs, objects, timers, runs, sent, nextId := map[], map[], map[], map[], [], 0;
    }

    method ClearTimeout(timer: Option<int>)
      modifies this`timers
      ensures timers == Without(old(timers), timer)
    {
      if timer.Some? { timers := timers - {timer.value}; }
    }

    method PollOnce(uri: string)
      requires Linked(Current())
      modifies this`runs, this`nextId
      ensures Current() == Poll(old(Current()), uri)
    {
      if uri !in subs || objects[subs[uri]].stopped { return; }
      runs := runs[nextId := Activation(subs[uri], AwaitBackend)];
      nextId := nextId + 1;
    }

    method StopWatching(uri: string)
      requires Linked(Current())
      modifies this`subs, this`objects, this`timers
      ensures Current() == Stop(old(Current()), uri)
    {
      if uri !in subs { return; }
      var o := subs[uri];
      objects := objects[o := Halt(objects[o])];
      ClearTimeout(objects[o].timer);
      subs := subs - {uri};
    }

    method OnDispose()
      requires Linked(Current())
      modifies this
      ensures Current() == Next(old(Current()), DisposeAll)
    {
      ghost var before, done := Current(), {};
      var left := subs.Keys;
      assert StopEach(before, done) == before;
      hide StopEach, Stop, StopAll, Linked;
      while left != {}
        invariant done !! left && done + left == before.subs.Keys && Linked(before)
        invariant Current() == StopEach(before, done) && Linked(Current())
        decreases left
      {
        var uri :| uri in left;
        StopOneMore(before, done, uri);
        StopWatching(uri);
        left := left - {uri};
        done := done + {uri};
      }
      StopEachIsAll(before);
    }

    method OnSubscribe(uri: string, isStatus: bool)
      requires Linked(Current())
      modifies this
      ensures Current() == Next(old(Current()), Subscribe(uri, isStatus))
    {
      if isStatus && (uri !in subs || objects[subs[uri]].stopped) {
        if uri in subs { ClearTimeout(objects[subs[uri]].timer); }
        objects := objects[nextId := Sub(uri, None, false, None)];
        subs := subs[uri := nextId];
        nextId := nextId + 1;
        PollOnce(uri);
      }
    }

    method OnTimer(t: int)
      requires Linked(Current()) && Enabled(Current(), TimerFires(t))
      modifies this
      ensures Current() == Next(old(Current()), TimerFires(t))
    {
      var uri := timers[t].uri;
      timers := timers - {t};
      PollOnce(uri);
    }

    /** The activation returns after stopping its object. */
    method GiveUp(r: int)
      requires Linked(Current()) && r in runs
      modifies this`runs, this`objects
      ensures Current() == Quit(old(Current()), r)
    {
      var o := runs[r].sub;
      objects := objects[o := Halt(objects[o])];
      runs := runs - {r};
    }

    /** The last line of a poll. */
    method Schedule(r: int, delay: real)
      requires Linked(Current()) && r in runs
      modifies this
      ensures Current() == Rearm(old(Current()), r, delay)
    {
      var o := runs[r].sub;
      runs := runs - {r};
      if !objects[o].stopped {
        timers := timers[nextId := Timer(objects[o].uri, delay)];
        objects := objects[o := objects[o].(timer := Some(nextId))];
        nextId := nextId + 1;
      }
    }

    method OnError(r: int, status: Option<int>, delay: real)
      requires Linked(Current()) && r in runs
      modifies this
      ensures Current() == Catch(old(Current()), r, status, delay)
    {
      if status.Some? && status.value in PERMANENT_STATUSES { GiveUp(r); } else { Schedule(r, delay); }
    }

    method Remember(r: int, snapshot: Snapshot)
      requires Linked(Current()) && r in runs
      modifies this
      ensures Current() == Store(old(Current()), r, snapshot)
    {
      var o := runs[r].sub;
      objects := objects[o := objects[o].(last := Some(snapshot.text))];
      if IsTerminal(snapshot) { GiveUp(r); } else { Schedule(r, ClampInterval(snapshot.seconds)); }
    }

    method OnBackend(r: int, degraded: Outcome<bool>)
      requires Linked(Current()) && Enabled(Current(), BackendSettles(r, degraded))
      modifies this
      ensures Current() == Next(old(Current()), BackendSettles(r, degraded))
    {
      match degraded
      case Throws(status) => OnError(r, status, DEFAULT_INTERVAL_MS);
      case Returns(isDegraded) =>
        if isDegraded { GiveUp(r); } else { runs := runs[r := runs[r].(phase := Fetching)]; }
    }

    method OnFetched(r: int, read: Outcome<Snapshot>)
      requires Linked(Current()) && Enabled(Current(), FetchSettles(r, read))
      modifies this
      ensures Current() == Next(old(Current()), FetchSettles(r, read))
    {
      match read
      case Throws(status) => OnError(r, status, DEFAULT_INTERVAL_MS);
      case Returns(snapshot) =>
        var o := runs[r].sub;
        if objects[o].stopped {
          runs := runs - {r};
        } else if objects[o].last.Some? && snapshot.text != objects[o].last.value {
          sent := sent + [Note(o, objects[o].uri, objects[o].last, snapshot.text)];
          runs := runs[r := Activation(o, Sending(snapshot))];
        } else {
          Remember(r, snapshot);
        }
    }

    method OnSent(r: int, outcome: Outcome<()>)
      requires Linked(Current()) && Enabled(Current(), SendSettles(r, outcome))
      modifies this
      ensures Current() == Next(old(Current()), SendSettles(r, outcome))
    {
      var snapshot := runs[r].phase.snapshot;
      match outcome
      case Throws(status) => OnError(r, status, ClampInterval(snapshot.seconds));
      case Returns(_) => Remember(r, snapshot);
    }
  }
}
