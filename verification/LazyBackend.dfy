/**
 The memoized backend resolver: one attempt at a time, an exponentially growing cooldown after each
 failure, and a disposal after which nothing is ever resolved again.
 */
module LazyBackend {
  import opened Prelude

  const BACKEND_RETRY_COOLDOWN_MS: int := 15_000
  const BACKEND_RETRY_COOLDOWN_CAP_MS: int := 300_000

  datatype Outcome = Pending | Rejected(at: int) | Fulfilled(at: int)

  /** One call of the resolver and what became of its promise. */
  datatype Attempt = Attempt(start: int, outcome: Outcome)

  /**
   The holder's four fields, the attempts it ever started (`resolved` names one of them), the
   `dispose` calls still awaiting an attempt, and how often a resolved backend was disposed.
   */
  datatype State = State(resolved: Option<int>, failedAt: Option<int>, consecutiveFailures: int, disposed: bool,
                         attempts: seq<Attempt>, disposers: seq<int>, released: int)

  datatype Event =
    | Get(now: int)
    | Settle(attempt: int, ok: bool, now: int)
    | Dispose(now: int)
    | DisposerResumes(k: int, now: int)

  function Pow2(n: nat): int {
    if n == 0 then 1 else 2 * Pow2(n - 1)
  }

  function Cooldown(base: int, consecutiveFailures: int): int {
    var doublings: nat := if consecutiveFailures - 1 < 0 then 0 else consecutiveFailures - 1;
    var backoff := base * Pow2(doublings);
    if backoff < BACKEND_RETRY_COOLDOWN_CAP_MS then backoff else BACKEND_RETRY_COOLDOWN_CAP_MS
  }

  const INITIAL: State := State(None, None, 0, false, [], [], 0)

  predicate RetryDue(base: int, s: State, now: int) {
    s.resolved.Some? && s.failedAt.Some? && now - s.failedAt.value >= Cooldown(base, s.consecutiveFailures)
  }

  function AfterGet(base: int, s: State, now: int): State {
    if s.disposed then s
    else
      var t := if RetryDue(base, s, now) then s.(resolved := None, failedAt := None) else s;
      if t.resolved.None? then t.(attempts := t.attempts + [Attempt(now, Pending)], resolved := Some(|t.attempts|))
         else t
  }

  function AfterSettle(s: State, i: int, ok: bool, now: int): State
    requires 0 <= i < |s.attempts|
  {
    var t := s.(attempts := s.attempts[i := s.attempts[i].(outcome := if ok then Fulfilled(now) else Rejected(now))]);
    if s.resolved != Some(i) then t
    else if ok then t.(failedAt := None, consecutiveFailures := 0)
    else t.(failedAt := Some(now), consecutiveFailures := s.consecutiveFailures + 1)
  }

  function AfterDispose(s: State): State {
    var t := s.(disposed := true);
    if s.resolved.Some? then t.(disposers := s.disposers + [s.resolved.value]) else t
  }

  function AfterResume(s: State, k: int): State
    requires 0 <= k < |s.disposers| && 0 <= s.disposers[k] < |s.attempts|
  {
    s.(disposers := s.disposers[..k] + s.disposers[k + 1..],
       released := s.released + if s.attempts[s.disposers[k]].outcome.Fulfilled? then 1 else 0)
  }

  // ---------------------------------------------------------------- the class

  class Holder {
    const retryCooldownMs: int
    var resolved: Option<int>
    var failedAt: Option<int>
    var consecutiveFailures: int
    var disposed: bool
    var attempts: seq<Attempt>
    var disposers: seq<int>
    var released: int

    ghost function Current(): State
      reads this
    {
      State(resolved, failedAt, consecutiveFailures, disposed, attempts, disposers, released)
    }

    constructor (retryCooldownMs: int := BACKEND_RETRY_COOLDOWN_MS)
      ensures this.retryCooldownMs == retryCooldownMs && Current() == INITIAL
    {
      this.retryCooldownMs := retryCooldownMs;
      resolved, failedAt, consecutiveFailures, disposed := None, None, 0, false;
      attempts, disposers, released := [], [], 0;
    }

    method CurrentCooldownMs() returns (ms: int)
      ensures ms == Cooldown(retryCooldownMs, consecutiveFailures)
    {
      var doublings := if consecutiveFailures - 1 < 0 then 0 else consecutiveFailures - 1;
      var backoff, i := retryCooldownMs, 0;
      while i < doublings
        invariant 0 <= i <= doublings && backoff == retryCooldownMs * Pow2(i)
      {
        backoff, i := 2 * backoff, i + 1;
      }
      ms := if backoff < BACKEND_RETRY_COOLDOWN_CAP_MS then backoff else BACKEND_RETRY_COOLDOWN_CAP_MS;
    }

    /** The promise handed out, or none when the call is rejected because the holder is disposed. */
    method Get(now: int) returns (promise: Option<int>)
      modifies this`resolved, this`failedAt, this`attempts
      ensures Current() == AfterGet(retryCooldownMs, old(Current()), now)
      ensures promise == if disposed then None else resolved
    {
      if disposed { return None; }
      if resolved.Some? && failedAt.Some? {
        var cooldown := CurrentCooldownMs();
        if now - failedAt.value >= cooldown {
          resolved := None;
          failedAt := None;
        }
      }
      if resolved.None? {
        attempts := attempts + [Attempt(now, Pending)];
        resolved := Some(|attempts| - 1);
      }
      promise := resolved;
    }

    method AttemptFulfilled(i: int, now: int)
      requires 0 <= i < |attempts|
      modifies this`failedAt, this`consecutiveFailures, this`attempts
      ensures Current() == AfterSettle(old(Current()), i, true, now)
    {
      attempts := attempts[i := attempts[i].(outcome := Fulfilled(now))];
      if resolved == Some(i) {
        failedAt := None;
        consecutiveFailures := 0;
      }
    }

    method AttemptRejected(i: int, now: int)
      requires 0 <= i < |attempts|
      modifies this`failedAt, this`consecutiveFailures, this`attempts
      ensures Current() == AfterSettle(old(Current()), i, false, now)
    {
      attempts := attempts[i := attempts[i].(outcome := Rejected(now))];
      if resolved == Some(i) {
        failedAt := Some(now);
        consecutiveFailures := consecutiveFailures + 1;
      }
    }

    /** `dispose` up to its await. */
    method BeginDispose()
      modifies this`disposed, this`disposers
      ensures Current() == AfterDispose(old(Current()))
    {
      disposed := true;
      if resolved.None? { return; }
      disposers := disposers + [resolved.value];
    }

    /** `dispose` after its await: a resolved backend is disposed, a failed resolution leaves nothing to do. */
    method FinishDispose(k: int)
      requires 0 <= k < |disposers| && 0 <= disposers[k] < |attempts|
      modifies this`disposers, this`released
      ensures Current() == AfterResume(old(Current()), k)
    {
      if attempts[disposers[k]].outcome.Fulfilled? {
        released := released + 1;
      }
      disposers := disposers[..k] + disposers[k + 1..];
    }
  }

  // ---------------------------------------------------------------- runs

  /** Promises settle once, an awaiting dispose resumes after its attempt settled, and time does not go back. */
  ghost predicate Enabled(s: State, clock: int, e: Event) {
    && e.now >= clock
    && match e
       case Get(_) => true
       case Settle(i, _, _) => 0 <= i < |s.attempts| && s.attempts[i].outcome.Pending?
       case Dispose(_) => true
       case DisposerResumes(k, _) =>
         && 0 <= k < |s.disposers| && 0 <= s.disposers[k] < |s.attempts|
         && !s.attempts[s.disposers[k]].outcome.Pending?
  }

  ghost function Next(base: int, s: State, clock: int, e: Event): State
    requires Enabled(s, clock, e)
  {
    match e
    case Get(now) => AfterGet(base, s, now)
    case Settle(i, ok, now) => AfterSettle(s, i, ok, now)
    case Dispose(_) => AfterDispose(s)
    case DisposerResumes(k, _) => AfterResume(s, k)
  }

  /** `s` is reached at time `clock` by some run of enabled events. */
  ghost predicate Run(base: int, events: seq<Event>, s: State, clock: int)
    decreases |events|
  {
    if events == [] then s == INITIAL
    else
      var n := |events| - 1;
      && clock == events[n].now
      && exists t, before ::
           Run(base, events[..n], t, before) && Enabled(t, before, events[n]) && s == Next(base, t, before, events[n])
  }

  ghost predicate AttemptOk(base: int, s: State, i: int)
    requires 0 <= i < |s.attempts|
  {
    var a := s.attempts[i];
    && (i < |s.attempts| - 1 ==> a.outcome.Rejected?)
    && (a.outcome.Rejected? ==> a.start <= a.outcome.at)
    && (i > 0 && s.attempts[i - 1].outcome.Rejected? ==> a.start - s.attempts[i - 1].outcome.at >= Cooldown(base, i))
  }

  ghost predicate LastOk(s: State, clock: int) {
    if s.attempts == [] then s.resolved.None? && s.failedAt.None? && s.consecutiveFailures == 0
    else
      var n := |s.attempts|;
      && s.resolved == Some(n - 1)
      && s.attempts[n - 1].start <= clock
      && match s.attempts[n - 1].outcome
         case Pending => s.failedAt.None? && s.consecutiveFailures == n - 1
         case Rejected(at) => s.failedAt == Some(at) && at <= clock && s.consecutiveFailures == n
         case Fulfilled(_) => s.failedAt.None? && s.consecutiveFailures == 0
  }

  ghost predicate DisposalOk(s: State) {
    && (forall k :: 0 <= k < |s.disposers| ==> s.disposers[k] == |s.attempts| - 1 && s.attempts != [])
    && s.released >= 0
    && (s.disposers != [] || s.released > 0 ==> s.disposed)
    && (s.released > 0 ==> s.attempts != [] && s.attempts[|s.attempts| - 1].outcome.Fulfilled?)
    && (s.disposed && s.attempts != [] ==>
          || s.disposers != []
          || s.attempts[|s.attempts| - 1].outcome.Rejected?
          || (s.attempts[|s.attempts| - 1].outcome.Fulfilled? && s.released > 0))
  }

  ghost predicate Inv(base: int, s: State, clock: int) {
    && (forall i :: 0 <= i < |s.attempts| ==> AttemptOk(base, s, i))
    && LastOk(s, clock)
    && DisposalOk(s)
  }

  lemma GetKeeps(base: int, s: State, clock: int, now: int)
    requires Inv(base, s, clock) && clock <= now
    ensures Inv(base, AfterGet(base, s, now), now)
  {
    var t := AfterGet(base, s, now);
    forall i | 0 <= i < |t.attempts| ensures AttemptOk(base, t, i) {
      if i < |s.attempts| { assert AttemptOk(base, s, i); }
    }
  }

  lemma SettleKeeps(base: int, s: State, clock: int, i: int, ok: bool, now: int)
    requires Inv(base, s, clock) && clock <= now && 0 <= i < |s.attempts| && s.attempts[i].outcome.Pending?
    ensures Inv(base, AfterSettle(s, i, ok, now), now)
    ensures s.resolved == Some(i)
  {
    var t := AfterSettle(s, i, ok, now);
    assert AttemptOk(base, s, i);
    forall j | 0 <= j < |t.attempts| ensures AttemptOk(base, t, j) {
      assert AttemptOk(base, s, j);
    }
  }

  lemma InvariantKept(base: int, s: State, clock: int, e: Event)
    requires Inv(base, s, clock) && Enabled(s, clock, e)
    ensures Inv(base, Next(base, s, clock, e), e.now)
  {
    match e
    case Get(now) => GetKeeps(base, s, clock, now);
    case Settle(i, ok, now) => SettleKeeps(base, s, clock, i, ok, now);
    case Dispose(now) =>
      var t := AfterDispose(s);
      forall i | 0 <= i < |t.attempts| ensures AttemptOk(base, t, i) { assert AttemptOk(base, s, i); }
    case DisposerResumes(k, now) =>
      var t := AfterResume(s, k);
      forall i | 0 <= i < |t.attempts| ensures AttemptOk(base, t, i) { assert AttemptOk(base, s, i); }
  }

  lemma {:induction false} RunKeeps(base: int, events: seq<Event>, s: State, clock: int)
    requires Run(base, events, s, clock)
    ensures Inv(base, s, clock)
    decreases |events|
  {
    if events != [] {
      var n := |events| - 1;
      var t, before :| Run(base, events[..n], t, before) && Enabled(t, before, events[n])
        && s == Next(base, t, before, events[n]);
      RunKeeps(base, events[..n], t, before);
      InvariantKept(base, t, before, events[n]);
    }
  }

  // ---------------------------------------------------------------- results

  /**
   At most one attempt is ever unsettled and at most one ever succeeds: in every run all attempts but
   the last have failed, and the memo is the last.
   */
  lemma OneLiveAttempt(base: int, events: seq<Event>, s: State, clock: int)
    requires Run(base, events, s, clock)
    ensures forall i :: 0 <= i < |s.attempts| - 1 ==> s.attempts[i].outcome.Rejected?
    ensures s.attempts != [] ==> s.resolved == Some(|s.attempts| - 1)
  {
    RunKeeps(base, events, s, clock);
    forall i | 0 <= i < |s.attempts| - 1 ensures s.attempts[i].outcome.Rejected? {
      assert AttemptOk(base, s, i);
    }
  }

  /**
   A new attempt starts exactly when there was none yet or the cooldown of the last failure is over,
   unless disposed; it starts at once, and nothing else adds an attempt.
   */
  lemma AttemptStartsWhenDue(base: int, events: seq<Event>, s: State, clock: int, e: Event)
    requires Run(base, events, s, clock) && Enabled(s, clock, e)
    ensures var n, after := |s.attempts|, Next(base, s, clock, e).attempts;
            if e.Get? && !s.disposed
               && (n == 0 || (s.attempts[n - 1].outcome.Rejected?
                              && e.now - s.attempts[n - 1].outcome.at >= Cooldown(base, n)))
            then after == s.attempts + [Attempt(e.now, Pending)]
            else |after| == n
  {
    RunKeeps(base, events, s, clock);
  }

  /** One event and one attempt: settled by its own settling alone, once; begun pending. */
  lemma OutcomeStep(base: int, s: State, clock: int, e: Event, i: nat)
    requires Enabled(s, clock, e)
    ensures var t := Next(base, s, clock, e);
            && |s.attempts| <= |t.attempts| && (e.Settle? && e.attempt == i ==> i < |s.attempts|)
            && (i < |s.attempts| ==>
                  if e.Settle? && e.attempt == i
                  then s.attempts[i].outcome.Pending?
                    && t.attempts[i].outcome == if e.ok then Fulfilled(e.now) else Rejected(e.now)
                  else t.attempts[i].outcome == s.attempts[i].outcome)
            && (|s.attempts| <= i < |t.attempts| ==> t.attempts[i].outcome.Pending?)
  {
  }

  /** What became of each attempt is what its promise reported, when it did; a pending one has not yet. */
  lemma {:induction false} OutcomesAreReported(base: int, events: seq<Event>, s: State, clock: int, i: nat)
    requires Run(base, events, s, clock) && i < |s.attempts|
    ensures match s.attempts[i].outcome
            case Fulfilled(at) => Settle(i, true, at) in events
            case Rejected(at) => Settle(i, false, at) in events
            case Pending => forall ok, at :: Settle(i, ok, at) !in events
    decreases |events|
  {
    hide Next, Enabled;
    var n := |events| - 1;
    var t, before :| Run(base, events[..n], t, before) && Enabled(t, before, events[n])
      && s == Next(base, t, before, events[n]);
    assert events == events[..n] + [events[n]];
    OutcomeStep(base, t, before, events[n], i);
    if i < |t.attempts| {
      OutcomesAreReported(base, events[..n], t, before, i);
    } else {
      UnstartedIsUnsettled(base, events[..n], t, before, i);
    }
  }

  lemma {:induction false} UnstartedIsUnsettled(base: int, events: seq<Event>, s: State, clock: int, i: nat)
    requires Run(base, events, s, clock) && i >= |s.attempts|
    ensures forall ok, at :: Settle(i, ok, at) !in events
    decreases |events|
  {
    hide Next, Enabled;
    if events != [] {
      var n := |events| - 1;
      var t, before :| Run(base, events[..n], t, before) && Enabled(t, before, events[n])
        && s == Next(base, t, before, events[n]);
      assert events == events[..n] + [events[n]];
      OutcomeStep(base, t, before, events[n], i);
      UnstartedIsUnsettled(base, events[..n], t, before, i);
    }
  }

  /** The time the first `n` failures hold the next attempt back. */
  function Backoff(base: int, n: nat): int {
    if n == 0 then 0 else Backoff(base, n - 1) + Cooldown(base, n)
  }

  /** In every run, attempt `n` (counting from 0) starts no earlier than the sum of the cooldowns before it. */
  lemma {:induction false} AttemptsBackOff(base: int, events: seq<Event>, s: State, clock: int, n: nat)
    requires Run(base, events, s, clock) && n < |s.attempts|
    ensures s.attempts[n].start >= s.attempts[0].start + Backoff(base, n)
  {
    if n > 0 {
      AttemptsBackOff(base, events, s, clock, n - 1);
      RunKeeps(base, events, s, clock);
      assert AttemptOk(base, s, n) && AttemptOk(base, s, n - 1);
    }
  }

  lemma {:induction false} Pow2Grows(n: nat)
    requires n >= 5
    ensures Pow2(n) >= 32
  {
    if n > 5 { Pow2Grows(n - 1); } else { assert Pow2(5) == 2 * Pow2(4) && Pow2(3) == 8; }
  }

  lemma {:induction false} DefaultBackoff(n: nat)
    requires n >= 5
    ensures Backoff(BACKEND_RETRY_COOLDOWN_MS, n) == 465_000 + 300_000 * (n - 5)
  {
    var b := BACKEND_RETRY_COOLDOWN_MS;
    if n == 5 {
      assert Pow2(1) == 2 && Pow2(2) == 4 && Pow2(3) == 8 && Pow2(4) == 16;
      assert Cooldown(b, 1) == 15_000 && Cooldown(b, 2) == 30_000 && Cooldown(b, 3) == 60_000;
      assert Cooldown(b, 4) == 120_000 && Cooldown(b, 5) == 240_000;
      assert Backoff(b, 1) == 15_000 && Backoff(b, 3) == 105_000;
    } else {
      DefaultBackoff(n - 1);
      Pow2Grows(n - 1);
      assert Cooldown(b, n) == 300_000;
    }
  }

  /**
   With the default cooldown, the `n`-th attempt (n at least 6) starts at least 465 s plus 300 s each
   further one after the first.
   */
  lemma DefaultAttemptsBackOff(events: seq<Event>, s: State, clock: int, n: nat)
    requires Run(BACKEND_RETRY_COOLDOWN_MS, events, s, clock) && 6 <= n <= |s.attempts|
    ensures s.attempts[n - 1].start >= s.attempts[0].start + 465_000 + 300_000 * (n - 6)
  {
    AttemptsBackOff(BACKEND_RETRY_COOLDOWN_MS, events, s, clock, n - 1);
    DefaultBackoff(n - 1);
  }

  /** Some event of the run is a `dispose` call. */
  predicate DisposeCalled(events: seq<Event>) {
    exists i :: 0 <= i < |events| && events[i].Dispose?
  }

  lemma CalledOneMore(events: seq<Event>)
    requires events != []
    ensures DisposeCalled(events) <==> DisposeCalled(events[..|events| - 1]) || events[|events| - 1].Dispose?
  {
  }

  /** The holder is disposed exactly from the first `dispose` call on. */
  lemma {:induction false} DisposedIffCalled(base: int, events: seq<Event>, s: State, clock: int)
    requires Run(base, events, s, clock)
    ensures s.disposed <==> DisposeCalled(events)
    decreases |events|
  {
    if events != [] {
      var n := |events| - 1;
      var t, before :| Run(base, events[..n], t, before) && Enabled(t, before, events[n])
        && s == Next(base, t, before, events[n]);
      DisposedIffCalled(base, events[..n], t, before);
      CalledOneMore(events);
    }
  }

  /** The attempts of the later state are those of the earlier one, settled or not. */
  predicate SameAttempts(s: State, t: State) {
    |t.attempts| == |s.attempts| && forall i :: 0 <= i < |s.attempts| ==> t.attempts[i].start == s.attempts[i].start
  }

  lemma DisposedIsIdle(base: int, s: State, clock: int, e: Event)
    requires Enabled(s, clock, e) && s.disposed
    ensures Next(base, s, clock, e).disposed && SameAttempts(s, Next(base, s, clock, e))
  {
  }

  /** After a `dispose` call no attempt is ever started again, and a `get` changes nothing. */
  lemma {:induction false} NothingStartsAfterDispose(base: int, events: seq<Event>, s: State, clock: int, k: nat)
    returns (early: State, then': int)
    requires Run(base, events, s, clock) && k <= |events| && DisposeCalled(events[..k])
    ensures Run(base, events[..k], early, then') && SameAttempts(early, s)
    ensures forall now :: AfterGet(base, s, now) == s
    decreases |events|
  {
    DisposedIffCalled(base, events, s, clock);
    assert DisposeCalled(events);
    hide Next, Enabled;
    if k == |events| {
      assert events[..k] == events;
      early, then' := s, clock;
    } else {
      var n := |events| - 1;
      var t, before :| Run(base, events[..n], t, before) && Enabled(t, before, events[n])
        && s == Next(base, t, before, events[n]);
      assert events[..n][..k] == events[..k];
      early, then' := NothingStartsAfterDispose(base, events[..n], t, before, k);
      assert DisposeCalled(events[..n]);
      DisposedIffCalled(base, events[..n], t, before);
      DisposedIsIdle(base, t, before, events[n]);
    }
  }

  function CountOf(events: seq<Event>, p: Event -> bool): (r: nat)
    ensures r <= |events|
  {
    if events == [] then 0
    else CountOf(events[..|events| - 1], p) + if p(events[|events| - 1]) then 1 else 0
  }

  function IsDispose(): Event -> bool {
    (e: Event) => e.Dispose?
  }

  function IsResumption(): Event -> bool {
    (e: Event) => e.DisposerResumes?
  }

  lemma {:induction false} NoneUncalled(events: seq<Event>)
    requires !DisposeCalled(events)
    ensures CountOf(events, IsDispose()) == 0
    decreases |events|
  {
    if events != [] {
      CalledOneMore(events);
      NoneUncalled(events[..|events| - 1]);
    }
  }

  /** The books after `called` dispose calls of which `returned` have resumed. */
  ghost predicate Accounted(s: State, called: nat, returned: nat) {
    && |s.disposers| + returned == (if s.attempts == [] then 0 else called)
    && s.released == (if s.attempts != [] && s.attempts[|s.attempts| - 1].outcome.Fulfilled? then returned else 0)
    && (s.attempts != [] && s.attempts[|s.attempts| - 1].outcome.Pending? ==> returned == 0)
  }

  lemma AccountedStep(base: int, s: State, clock: int, e: Event, called: nat, returned: nat)
    requires Inv(base, s, clock) && Enabled(s, clock, e) && Accounted(s, called, returned)
    requires !s.disposed ==> called == 0
    ensures Accounted(Next(base, s, clock, e), called + (if e.Dispose? then 1 else 0),
                      returned + if e.DisposerResumes? then 1 else 0)
  {
    if e.Settle? { SettleKeeps(base, s, clock, e.attempt, e.ok, e.now); }
    hide AttemptOk, Cooldown;
  }

  /**
   Every `dispose` call waits for the one attempt there is and returns once, and each that returned has
   released the backend exactly if that attempt succeeded.
   */
  lemma {:induction false} EachDisposeReleases(base: int, events: seq<Event>, s: State, clock: int)
    requires Run(base, events, s, clock)
    ensures Accounted(s, CountOf(events, IsDispose()), CountOf(events, IsResumption()))
    decreases |events|
  {
    hide Accounted, Inv, Enabled, Next;
    if events == [] {
      NothingAccounted();
    } else {
      var n := |events| - 1;
      var t, before :| Run(base, events[..n], t, before) && Enabled(t, before, events[n])
        && s == Next(base, t, before, events[n]);
      var called, returned := CountOf(events[..n], IsDispose()), CountOf(events[..n], IsResumption());
      EachDisposeReleases(base, events[..n], t, before);
      RunKeeps(base, events[..n], t, before);
      DisposedIffCalled(base, events[..n], t, before);
      if !t.disposed { NoneUncalled(events[..n]); }
      AccountedStep(base, t, before, events[n], called, returned);
    }
  }

  lemma NothingAccounted()
    ensures Accounted(INITIAL, CountOf([], IsDispose()), CountOf([], IsResumption()))
  {
  }

  /**
   When a run contains a `dispose` call and all such calls have returned, no attempt is left pending and
   the backend that was resolved, if any, has been disposed; none is disposed without a call.
   */
  lemma DisposalIsComplete(base: int, events: seq<Event>, s: State, clock: int)
    requires Run(base, events, s, clock)
    ensures DisposeCalled(events) && s.disposers == [] ==>
              forall i :: 0 <= i < |s.attempts| ==>
                       !s.attempts[i].outcome.Pending? && (s.attempts[i].outcome.Fulfilled? ==> s.released > 0)
    ensures s.released > 0 ==>
              DisposeCalled(events) && exists i :: 0 <= i < |s.attempts| && s.attempts[i].outcome.Fulfilled?
  {
    RunKeeps(base, events, s, clock);
    DisposedIffCalled(base, events, s, clock);
    forall i | 0 <= i < |s.attempts| && s.disposed && s.disposers == []
      ensures !s.attempts[i].outcome.Pending? && (s.attempts[i].outcome.Fulfilled? ==> s.released > 0)
    {
      assert AttemptOk(base, s, i);
    }
  }
}
