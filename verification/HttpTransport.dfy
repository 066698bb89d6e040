/**
 The listener's shared state as the source keeps it: the session map and the reservation counter,
 changed in place by handlers, callbacks and the sweep timer. Each method is one uninterrupted
 stretch and is proved to take exactly the step `HttpSessions` describes.
 */
module HttpTransport {
  import opened Prelude
  import opened HttpSessions

  class Transport {
    const maxSessions: int
    const idleTimeoutMs: int
    var sessions: map<int, Session>
    var pending: int
    /** What each handler keeps in its own scope: build, session id, `slotReleased`, `prepared`. */
    var inits: map<int, Init>
    var posts: map<int, Post>
    /** What was handed to the transports. */
    var log: seq<Delivery>

    ghost function Current(): State
      reads this
    {
      State(sessions, pending, inits, posts, log)
    }

    constructor (maxSessions: int, idleTimeoutMs: int)
      ensures this.maxSessions == maxSessions && this.idleTimeoutMs == idleTimeoutMs && Current() == EMPTY
    {
      this.maxSessions := maxSessions;
      this.idleTimeoutMs := idleTimeoutMs;
      sessions, pending, inits, posts, log := map[], 0, map[], map[], [];
    }

    method FreeSlot(h: int)
      requires h in inits
      modifies this`pending, this`inits
      ensures Current() == ReleaseSlot(old(Current()), h)
    {
      if inits[h].holdsSlot {
        inits := inits[h := inits[h].(holdsSlot := false)];
        pending := pending - 1;
      }
    }

    method DisposeSession(sid: int)
      modifies this`sessions, this`inits
      ensures Current() == Dispose(old(Current()), sid)
    {
      if sid !in sessions { return; }
      var session := sessions[sid];
      sessions := sessions - {sid};
      if session.owner in inits {
        inits := inits[session.owner := inits[session.owner].(swept := inits[session.owner].swept + 1)];
      }
    }

    /** The timer: `entries` is the snapshot of the map's keys in iteration order. */
    method SweepIdle(now: int, entries: seq<int>)
      modifies this`sessions, this`inits
      ensures Current() == DisposeStale(old(Current()), now - idleTimeoutMs, entries)
    {
      var cutoff := now - idleTimeoutMs;
      var snapshot := sessions;
      for i := 0 to |entries|
        invariant Current() == DisposeStale(old(Current()), cutoff, entries[..i])
      {
        assert entries[..i + 1][..i] == entries[..i];
        if entries[i] in snapshot && snapshot[entries[i]].lastSeen < cutoff {
          DisposeSession(entries[i]);
        }
      }
      assert entries[..|entries|] == entries;
    }

    /** An initialize request whose body has been read; returns 503 or 0 when it goes on. */
    method BeginInitialize(h: int, factoryReturns: bool) returns (status: int)
      requires h !in inits
      modifies this`pending, this`inits
      ensures Current() == Admit(maxSessions, old(Current()), h, factoryReturns)
      ensures status == (if old(|sessions| + pending >= maxSessions) then 503 else if factoryReturns then 0 else 500)
    {
      if |sessions| + pending >= maxSessions { return 503; }
      pending := pending + 1;
      inits := inits[h := Init(if factoryReturns then Connecting else Crashed, None, true, Waiting, 0, 0)];
      status := if factoryReturns then 0 else 500;
    }

    method OnSessionInitialized(h: int, sid: int, now: int)
      requires h in inits
      modifies this`sessions, this`pending, this`inits
      ensures Current() == Register(old(Current()), h, sid, now)
    {
      inits := inits[h := inits[h].(sid := Some(sid))];
      sessions := sessions[sid := Session(h, now)];
      FreeSlot(h);
    }

    method IsRegistered(h: int) returns (registered: bool)
      requires h in inits
      ensures registered == Registered(Current(), h)
    {
      registered := inits[h].sid.Some? && inits[h].sid.value in sessions;
    }

    /** The `catch` around connect and handleRequest. */
    method InitializeThrew(h: int)
      requires h in inits
      modifies this`pending, this`inits
      ensures Current() == Abort(old(Current()), h)
    {
      FreeSlot(h);
      inits := inits[h := inits[h].(pc := Finished, gate := Failed)];
      var registered := IsRegistered(h);
      if !registered {
        inits := inits[h := inits[h].(dropped := inits[h].dropped + 1)];
      }
    }

    method ConnectReturned(h: int)
      requires h in inits
      modifies this`inits
      ensures Current() == Settle(old(Current()), h, Handling, Waiting)
    {
      inits := inits[h := inits[h].(pc := Handling, gate := Waiting)];
    }

    /** handleRequest returned: go on to prepare, or clean up a rejected initialize. */
    method HandleReturned(h: int)
      requires h in inits
      modifies this`pending, this`inits
      ensures Current() == Handled(old(Current()), h)
    {
      FreeSlot(h);
      var registered := IsRegistered(h);
      if registered {
        inits := inits[h := inits[h].(pc := Preparing, gate := Waiting)];
      } else {
        inits := inits[h := inits[h].(pc := Finished, gate := Failed)];
        inits := inits[h := inits[h].(dropped := inits[h].dropped + 1)];
      }
    }

    method PrepareSettles(h: int, ok: bool)
      requires h in inits
      modifies this`sessions, this`inits
      ensures Current() == Prepared(old(Current()), h, ok)
    {
      inits := inits[h := inits[h].(pc := Finished, gate := if ok then Open else Failed)];
      if !ok && inits[h].sid.Some? {
        DisposeSession(inits[h].sid.value);
      }
    }

    /** Any request naming a session refreshes its activity stamp before anything is awaited. */
    method RequestArrives(sid: int, now: int)
      modifies this`sessions
      ensures Current() == Refresh(old(Current()), sid, now)
    {
      if sid in sessions {
        sessions := sessions[sid := sessions[sid].(lastSeen := now)];
      }
    }

    /** The session a POST is for is looked up before its body is read. */
    method PostArrivesFor(r: int, sid: int, now: int)
      modifies this`sessions, this`posts
      ensures Current() == Arrive(old(Current()), r, sid, now)
    {
      RequestArrives(sid, now);
      posts := posts[r := if sid in sessions then Reading(sid, sessions[sid].owner) else Stray];
    }

    method BodyExceedsLimit(r: int)
      requires r in posts && AwaitsBody(posts[r])
      modifies this`posts
      ensures Current() == Refuse(old(Current()), r, 413)
    {
      posts := posts[r := Answered(413)];
    }

    method BodyArrived(r: int, body: Body)
      requires r in posts && AwaitsBody(posts[r])
      modifies this`posts, this`log
      ensures Current() == Read(old(Current()), r, body)
    {
      var p := posts[r];
      if p.Stray? {
        posts := posts[r := Answered(400)];
        return;
      }
      var gated := BodyHasRequest(body);
      if gated {
        posts := posts[r := Blocked(p.sid, p.owner, body)];
      } else {
        posts := posts[r := Answered(200)];
        log := log + [Delivery(r, p.sid, p.owner, body)];
      }
    }

    /** The awaited `prepared` promise settled. */
    method GateSettles(r: int)
      requires r in posts && posts[r].Blocked? && posts[r].owner in inits
      modifies this`posts, this`log
      ensures Current() == Resume(old(Current()), r)
    {
      var p := posts[r];
      if inits[p.owner].gate.Failed? {
        posts := posts[r := Answered(503)];
        return;
      }
      if p.sid !in sessions {
        posts := posts[r := Answered(404)];
        return;
      }
      posts := posts[r := Answered(200)];
      log := log + [Delivery(r, p.sid, sessions[p.sid].owner, p.body)];
    }
  }
}
