/**
 The append-only task journal: a chain of records each carrying the digest of the one before it, and
 the events the journal accepts.
 */
module TaskLedger {
  import opened Prelude

  /** A JSON value of an event's payload: text, or a list, which the host language cannot hash. */
  datatype Value = Text(text: string) | Items(items: seq<string>)

  type Payload = map<string, Value>

  datatype Body = Body(version: int, sequence: int, previous: Option<string>, event: string, payload: Payload,
                       revision: string, treeDigest: string, dirty: bool, recordedAt: string)

  datatype Record = Record(body: Body, digest: string)

  datatype Repo = Repo(revision: string, treeDigest: string, dirty: bool)

  predicate Truthy(v: Value) {
    match v case Text(t) => t != "" case Items(i) => i != []
  }

  /** `payload.get(field)` is present and truthy. */
  predicate Given(p: Payload, field: string) {
    field in p && Truthy(p[field])
  }

  predicate Is(p: Payload, field: string, text: string) {
    field in p && p[field] == Text(text)
  }

  // ---------------------------------------------------------------- the chain

  function PreviousDigest(lines: seq<Record>): Option<string> {
    if lines == [] then None else Some(lines[|lines| - 1].digest)
  }

  /** Line `i` numbers itself, names the digest of the line before it, and carries its own. */
  predicate Linked(hash: Body -> string, lines: seq<Record>, i: int)
    requires 0 <= i < |lines|
  {
    && lines[i].body.previous == PreviousDigest(lines[..i])
    && lines[i].body.sequence == i
    && hash(lines[i].body) == lines[i].digest
  }

  ghost predicate Chained(hash: Body -> string, lines: seq<Record>) {
    forall i :: 0 <= i < |lines| ==> Linked(hash, lines, i)
  }

  lemma ChainedPrefix(hash: Body -> string, lines: seq<Record>, n: int)
    requires Chained(hash, lines) && 0 <= n <= |lines|
    ensures Chained(hash, lines[..n])
  {
    forall i | 0 <= i < n ensures Linked(hash, lines[..n], i) {
      assert Linked(hash, lines, i);
      assert lines[..n][..i] == lines[..i];
    }
  }

  lemma ChainedExtend(hash: Body -> string, lines: seq<Record>, record: Record)
    requires Chained(hash, lines)
    ensures Chained(hash, lines + [record]) <==>
            record.body.previous == PreviousDigest(lines) && record.body.sequence == |lines|
              && hash(record.body) == record.digest
  {
    var longer := lines + [record];
    forall i | 0 <= i < |lines| ensures Linked(hash, longer, i) {
      assert Linked(hash, lines, i);
      assert longer[..i] == lines[..i];
    }
    assert longer[..|lines|] == lines;
    assert Linked(hash, longer, |lines|) <==>
           record.body.previous == PreviousDigest(lines) && record.body.sequence == |lines|
             && hash(record.body) == record.digest;
  }

  predicate CollideAt(hash: Body -> string, a: seq<Record>, b: seq<Record>, i: int, j: int)
    requires 0 <= i < |a| && 0 <= j < |b|
  {
    a[i].body != b[j].body && hash(a[i].body) == hash(b[j].body)
  }

  /** The two journals themselves hold different records of one digest. */
  ghost predicate Collide(hash: Body -> string, a: seq<Record>, b: seq<Record>) {
    exists i, j :: 0 <= i < |a| && 0 <= j < |b| && CollideAt(hash, a, b, i, j)
  }

  /**
   Two journals that decode and end in the same digest are equal record for record, or else a record
   of the one and a different record of the other have the same digest.
   */
  lemma {:induction false} LastDigestFixesJournal(hash: Body -> string, a: seq<Record>, b: seq<Record>)
    requires Chained(hash, a) && Chained(hash, b) && a != [] && b != []
    requires a[|a| - 1].digest == b[|b| - 1].digest
    ensures a == b || Collide(hash, a, b)
    decreases |a|
  {
    var m, n := |a| - 1, |b| - 1;
    assert Linked(hash, a, m) && Linked(hash, b, n);
    if a[m].body == b[n].body {
      assert a == a[..m] + [a[m]] && b == b[..n] + [b[n]];
      if m > 0 {
        ChainedPrefix(hash, a, m);
        ChainedPrefix(hash, b, n);
        LastDigestFixesJournal(hash, a[..m], b[..n]);
        if Collide(hash, a[..m], b[..n]) { CollideOn(hash, a, b, m, n); }
      }
    } else {
      assert CollideAt(hash, a, b, m, n);
    }
  }

  lemma CollideOn(hash: Body -> string, a: seq<Record>, b: seq<Record>, m: int, n: int)
    requires 0 <= m <= |a| && 0 <= n <= |b| && Collide(hash, a[..m], b[..n])
    ensures Collide(hash, a, b)
  {
    var i, j :| 0 <= i < m && 0 <= j < n && CollideAt(hash, a[..m], b[..n], i, j);
    assert CollideAt(hash, a, b, i, j);
  }

  // ---------------------------------------------------------------- which events are accepted

  function Transitions(state: string): set<string> {
    match state
    case "planned" => {"implementing", "blocked"}
    case "implementing" => {"validating", "blocked", "failed"}
    case "validating" => {"implementing", "review-ready", "blocked", "failed"}
    case "review-ready" => {"implementing", "accepted", "blocked"}
    case "blocked" => {"implementing", "validating", "failed"}
    case "failed" => {"implementing"}
    case _ => {}
  }

  /** The last record satisfying `p`, searched from the end. */
  function LastWhere(lines: seq<Record>, p: Record -> bool): Option<Record> {
    if lines == [] then None
    else if p(lines[|lines| - 1]) then Some(lines[|lines| - 1])
    else LastWhere(lines[..|lines| - 1], p)
  }

  predicate IsTransition(r: Record) {
    r.body.event == "transition"
  }

  predicate IsEffect(r: Record) {
    r.body.event == "effect"
  }

  function IsEffectOn(key: Value): Record -> bool {
    (r: Record) => IsEffect(r) && "key" in r.body.payload && r.body.payload["key"] == key
  }

  function FieldOf(r: Record, field: string): Value {
    if field in r.body.payload then r.body.payload[field] else Text("")
  }

  function CurrentState(lines: seq<Record>): Value {
    match LastWhere(lines, IsTransition)
    case Some(r) => FieldOf(r, "state")
    case None => Text("planned")
  }

  predicate AcceptsTransition(lines: seq<Record>, p: Payload) {
    && "state" in p && p["state"].Text?
    && CurrentState(lines).Text? && p["state"].text in Transitions(CurrentState(lines).text)
  }

  /** Searching back for the last effect of a key, every effect met on the way has a key. */
  predicate Keyed(lines: seq<Record>, key: Value) {
    lines == [] ||
    var n := |lines| - 1;
    IsEffectOn(key)(lines[n]) || ((IsEffect(lines[n]) ==> "key" in lines[n].body.payload) && Keyed(lines[..n], key))
  }

  predicate AcceptsEffect(lines: seq<Record>, p: Payload) {
    && (Is(p, "state", "pending") || Is(p, "state", "confirmed") || Is(p, "state", "not-applied"))
    && Given(p, "key") && Keyed(lines, p["key"])
    && var previous := LastWhere(lines, IsEffectOn(p["key"]));
       if Is(p, "state", "pending")
       then previous.None? || FieldOf(previous.value, "state") == Text("not-applied")
       else previous.Some? && FieldOf(previous.value, "state") == Text("pending") && Given(p, "receipt")
  }

  /** `validate_event`: the event is not refused. */
  predicate Accepts(lines: seq<Record>, event: string, p: Payload) {
    if lines == [] then event == "create" && Given(p, "intent") && Given(p, "acceptance")
    else
      match event
      case "transition" => AcceptsTransition(lines, p)
      case "effect" => AcceptsEffect(lines, p)
      case "verification" =>
        && Is(p, "authority", "local-execution")
        && (Is(p, "result", "passed") || Is(p, "result", "failed") || Is(p, "result", "timeout"))
      case _ => false
  }

  /** The journal was built by `append` alone. */
  ghost predicate Grown(hash: Body -> string, lines: seq<Record>)
    decreases |lines|
  {
    lines == [] ||
    var n := |lines| - 1;
    var front, b := lines[..n], lines[n].body;
    && Grown(hash, front) && Accepts(front, b.event, b.payload)
    && b.previous == PreviousDigest(front) && b.sequence == n && lines[n].digest == hash(b)
  }

  lemma GrownExtend(hash: Body -> string, lines: seq<Record>, record: Record)
    requires Accepts(lines, record.body.event, record.body.payload) && record.digest == hash(record.body)
    requires record.body.previous == PreviousDigest(lines) && record.body.sequence == |lines|
    ensures Grown(hash, lines) ==> Grown(hash, lines + [record])
  {
    assert (lines + [record])[..|lines|] == lines;
  }

  // ---------------------------------------------------------------- what `resume` reads

  predicate HashableKey(r: Record) {
    IsEffect(r) ==> FieldOf(r, "key").Text?
  }

  /** The reader finds the fields it indexes, and an effect's key can be a dictionary key. */
  predicate Readable(r: Record) {
    && (IsEffect(r) ==> "key" in r.body.payload && r.body.payload["key"].Text?)
    && (IsTransition(r) ==> "state" in r.body.payload)
  }

  function LastPayload(lines: seq<Record>, key: Value): Option<Payload> {
    match LastWhere(lines, IsEffectOn(key)) case Some(r) => Some(r.body.payload) case None => None
  }

  /** The last payload of every effect key says what state the effect is in. */
  ghost predicate EffectsTold(lines: seq<Record>) {
    forall key :: LastPayload(lines, Text(key)).Some? ==> "state" in LastPayload(lines, Text(key)).value
  }

  /** Exactly the keys whose last effect event is pending, with that event's payload. */
  ghost predicate PendingEffects(lines: seq<Record>, pending: map<string, Payload>) {
    forall key :: (if key in pending then Some(pending[key]) else None) ==
      match LastPayload(lines, Text(key))
      case Some(p) => if Is(p, "state", "pending") then Some(p) else None
      case None => None
  }

  /** What a journal must be for `resume` to answer. */
  ghost predicate Resumable(hash: Body -> string, lines: seq<Record>) {
    && Chained(hash, lines) && lines != []
    && (forall i :: 0 <= i < |lines| ==> Readable(lines[i])) && EffectsTold(lines)
  }

  /** The state and the last effect payloads after reading `lines`. */
  ghost predicate Replayed(lines: seq<Record>, state: Value, effects: map<string, Payload>) {
    && state == CurrentState(lines)
    && forall key :: (if key in effects then Some(effects[key]) else None) == LastPayload(lines, Text(key))
  }

  ghost predicate ReplayedUpTo(lines: seq<Record>, n: int, state: Value, effects: map<string, Payload>)
    requires 0 <= n <= |lines|
  {
    Replayed(lines[..n], state, effects)
  }

  lemma ReadNothing(lines: seq<Record>)
    ensures ReplayedUpTo(lines, 0, Text("planned"), map[])
  {
  }

  lemma LastWhereSnoc(lines: seq<Record>, r: Record, p: Record -> bool)
    ensures LastWhere(lines + [r], p) == if p(r) then Some(r) else LastWhere(lines, p)
  {
    assert (lines + [r])[..|lines|] == lines;
  }

  lemma {:induction false} ReadOneMore(lines: seq<Record>, n: int, state: Value, effects: map<string, Payload>)
    requires 0 <= n < |lines| && ReplayedUpTo(lines, n, state, effects) && Readable(lines[n])
    ensures IsEffect(lines[n]) ==>
              ReplayedUpTo(lines, n + 1, state, effects[lines[n].body.payload["key"].text := lines[n].body.payload])
    ensures IsTransition(lines[n]) ==> ReplayedUpTo(lines, n + 1, lines[n].body.payload["state"], effects)
    ensures !IsTransition(lines[n]) && !IsEffect(lines[n]) ==> ReplayedUpTo(lines, n + 1, state, effects)
  {
    var record := lines[n];
    TakeOneMore(lines, n);
    LastWhereSnoc(lines[..n], record, IsTransition);
    forall key ensures LastWhere(lines[..n + 1], IsEffectOn(Text(key))) ==
        if IsEffectOn(Text(key))(record) then Some(record) else LastWhere(lines[..n], IsEffectOn(Text(key))) {
      LastWhereSnoc(lines[..n], record, IsEffectOn(Text(key)));
    }
    hide LastWhere;
  }

  lemma ReplayedTold(lines: seq<Record>, state: Value, effects: map<string, Payload>)
    requires Replayed(lines, state, effects)
    ensures EffectsTold(lines) <==> forall key :: key in effects ==> "state" in effects[key]
  {
    hide LastWhere, LastPayload, CurrentState;
    if forall key :: key in effects ==> "state" in effects[key] {
      forall key | LastPayload(lines, Text(key)).Some? ensures "state" in LastPayload(lines, Text(key)).value {
        assert key in effects;
      }
    }
    if EffectsTold(lines) {
      forall key | key in effects ensures "state" in effects[key] {
        assert LastPayload(lines, Text(key)) == Some(effects[key]);
      }
    }
  }

  lemma ReplayedAnswers(lines: seq<Record>, state: Value, effects: map<string, Payload>, pending: map<string, Payload>)
    requires Replayed(lines, state, effects)
    requires pending == map key | key in effects && Is(effects[key], "state", "pending") :: effects[key]
    ensures state == CurrentState(lines) && PendingEffects(lines, pending)
  {
  }

  // ---------------------------------------------------------------- the journal as the source runs it

  class Ledger {
    const hash: Body -> string
    var lines: seq<Record>

    constructor (hash: Body -> string)
      ensures this.hash == hash && lines == []
    {
      this.hash := hash;
      lines := [];
    }

    static method Decode(hash: Body -> string, content: seq<Record>) returns (r: Result<seq<Record>, string>)
      ensures r.Ok? <==> Chained(hash, content)
      ensures r.Ok? ==> r.value == content
    {
      var records: seq<Record> := [];
      var previous: Option<string> := None;
      for i := 0 to |content|
        invariant records == content[..i] && previous == PreviousDigest(records) && Chained(hash, records)
      {
        var record := content[i];
        ChainedExtend(hash, records, record);
        assert content[..i + 1] == records + [record];
        if record.body.previous != previous || record.body.sequence != |records| || hash(record.body) != record.digest {
          if Chained(hash, content) { ChainedPrefix(hash, content, i + 1); }
          return Err("task journal integrity failure");
        }
        records := records + [record];
        previous := Some(record.digest);
      }
      assert content[..|content|] == content;
      return Ok(records);
    }

    /** Decode, validate, then extend the file by one line; a refused event leaves it as it was. */
    method Append(event: string, payload: Payload, repo: Repo, recordedAt: string) returns (r: Result<Record, string>)
      modifies this`lines
      ensures r.Ok? <==> Chained(hash, old(lines)) && Accepts(old(lines), event, payload)
      ensures r.Ok? ==> lines == old(lines) + [r.value] && Chained(hash, lines)
      ensures r.Ok? ==> r.value.body == Body(1, |old(lines)|, PreviousDigest(old(lines)), event, payload,
                                             repo.revision, repo.treeDigest, repo.dirty, recordedAt)
      ensures r.Err? ==> lines == old(lines)
      ensures Grown(hash, old(lines)) ==> Grown(hash, lines)
    {
      var decoded := Decode(hash, lines);
      if decoded.Err? { return Err(decoded.error); }
      var records := decoded.value;
      if !Accepts(records, event, payload) { return Err("event refused"); }
      var previous := if records == [] then None else Some(records[|records| - 1].digest);
      var body := Body(1, |records|, previous, event, payload, repo.revision, repo.treeDigest, repo.dirty, recordedAt);
      var record := Record(body, hash(body));
      ChainedExtend(hash, records, record);
      GrownExtend(hash, records, record);
      hide Chained, Grown, Accepts;
      lines := lines + [record];
      return Ok(record);
    }

    /** The loop of `resume` over the records: the last state, and the last payload of each effect key. */
    static method ReadBack(records: seq<Record>) returns (ok: bool, state: Value, effects: map<string, Payload>)
      ensures ok <==> forall i :: 0 <= i < |records| ==> Readable(records[i])
      ensures ok ==> Replayed(records, state, effects)
    {
      ok, state, effects := true, Text("planned"), map[];
      ReadNothing(records);
      for i := 0 to |records|
        invariant ReplayedUpTo(records, i, state, effects)
        invariant forall j :: 0 <= j < i ==> Readable(records[j])
      {
        var record := records[i];
        if !Readable(record) {
          ok := false;
          return;
        }
        hide ReplayedUpTo;
        ReadOneMore(records, i, state, effects);
        if IsEffect(record) {
          effects := effects[record.body.payload["key"].text := record.body.payload];
        } else if IsTransition(record) {
          state := record.body.payload["state"];
        }
      }
      TakeAll(records);
    }

    /** `resume`: the task state, and the payloads of the effects whose last event is still pending. */
    method Resume() returns (r: Result<(Value, map<string, Payload>), string>)
      ensures r.Ok? <==> Resumable(hash, lines)
      ensures r.Ok? ==> r.value.0 == CurrentState(lines) && PendingEffects(lines, r.value.1)
    {
      var decoded := Decode(hash, lines);
      if decoded.Err? { return Err(decoded.error); }
      var records := decoded.value;
      if records == [] { return Err("task does not exist"); }
      hide Chained, Readable, Replayed, CurrentState, PendingEffects, EffectsTold;
      var ok, state, effects := ReadBack(records);
      if !ok { return Err("a record lacks a field or has an unhashable key"); }
      ReplayedTold(lines, state, effects);
      if key :| key in effects && "state" !in effects[key] { return Err("an effect has no state"); }
      var pending := map key | key in effects && Is(effects[key], "state", "pending") :: effects[key];
      ReplayedAnswers(lines, state, effects, pending);
      return Ok((state, pending));
    }
  }

  /** What `append` builds, `decode` accepts, and so it does every prefix cut at a line. */
  lemma {:induction false} GrownIsChained(hash: Body -> string, lines: seq<Record>)
    requires Grown(hash, lines)
    ensures Chained(hash, lines)
    ensures forall n :: 0 <= n <= |lines| ==> Chained(hash, lines[..n])
    decreases |lines|
  {
    if lines != [] {
      var n := |lines| - 1;
      GrownIsChained(hash, lines[..n]);
      assert lines == lines[..n] + [lines[n]];
      ChainedExtend(hash, lines[..n], lines[n]);
    }
    forall n | 0 <= n <= |lines| ensures Chained(hash, lines[..n]) {
      ChainedPrefix(hash, lines, n);
    }
  }

  /** The fields the reader relies on. */
  ghost predicate FieldsThere(r: Record) {
    && (IsTransition(r) ==> "state" in r.body.payload && r.body.payload["state"].Text?)
    && (IsEffect(r) ==> "key" in r.body.payload && "state" in r.body.payload)
  }

  lemma AcceptedFields(lines: seq<Record>, r: Record)
    requires Accepts(lines, r.body.event, r.body.payload)
    ensures FieldsThere(r)
  {
    hide LastWhere, CurrentState, Keyed;
  }

  /** In a journal built by `append` they are there. */
  lemma {:induction false} GrownStates(hash: Body -> string, lines: seq<Record>)
    requires Grown(hash, lines)
    ensures forall i :: 0 <= i < |lines| ==> FieldsThere(lines[i])
    decreases |lines|
  {
    hide Accepts, FieldsThere;
    if lines != [] {
      var n := |lines| - 1;
      GrownStates(hash, lines[..n]);
      AcceptedFields(lines[..n], lines[n]);
      forall i | 0 <= i < |lines| ensures FieldsThere(lines[i]) {
        if i < n { assert lines[i] == lines[..n][i]; }
      }
    }
  }

  /** The field is there and holds something. */
  ghost predicate Filled(p: Payload, field: string) {
    field in p && p[field] != Text("") && p[field] != Items([])
  }

  /** What `append` lets a task be told at each point of its journal. */
  ghost predicate Tellable(b: Body, first: bool) {
    if first then b.event == "create" && Filled(b.payload, "intent") && Filled(b.payload, "acceptance")
    else
      || b.event == "transition" || b.event == "effect"
      || (b.event == "verification" && Is(b.payload, "authority", "local-execution")
          && exists result :: result in {"passed", "failed", "timeout"} && Is(b.payload, "result", result))
  }

  /** A journal begins with the one `create`, and its verifications are local ones with a known result. */
  lemma {:induction false} CreateComesFirst(hash: Body -> string, lines: seq<Record>)
    requires Grown(hash, lines)
    ensures forall i :: 0 <= i < |lines| ==> Tellable(lines[i].body, i == 0)
    decreases |lines|
  {
    if lines != [] {
      var n := |lines| - 1;
      CreateComesFirst(hash, lines[..n]);
      AcceptedIsTellable(lines[..n], lines[n].body);
      hide Grown, Accepts, Tellable;
      forall i | 0 <= i < |lines| ensures Tellable(lines[i].body, i == 0) {
        if i < n { assert lines[i] == lines[..n][i]; }
      }
    }
  }

  lemma AcceptedIsTellable(lines: seq<Record>, b: Body)
    ensures Accepts(lines, b.event, b.payload) ==> Tellable(b, lines == [])
    ensures b.event == "verification" && lines != [] && Tellable(b, false) ==> Accepts(lines, b.event, b.payload)
    ensures lines == [] && Tellable(b, true) ==> Accepts(lines, b.event, b.payload)
  {
    hide AcceptsTransition, AcceptsEffect;
    if Accepts(lines, b.event, b.payload) && lines != [] && b.event == "verification" {
      var r := if Is(b.payload, "result", "passed") then "passed"
               else if Is(b.payload, "result", "failed") then "failed" else "timeout";
      assert r in {"passed", "failed", "timeout"} && Is(b.payload, "result", r);
    }
  }

  lemma {:induction false} GrownIsKeyed(hash: Body -> string, lines: seq<Record>, key: Value)
    requires Grown(hash, lines)
    ensures Keyed(lines, key)
    decreases |lines|
  {
    hide Accepts;
    if lines != [] {
      var n := |lines| - 1;
      GrownIsKeyed(hash, lines[..n], key);
      AcceptedFields(lines[..n], lines[n]);
    }
  }

  lemma {:induction false} LastWhereFound(lines: seq<Record>, p: Record -> bool)
    requires LastWhere(lines, p).Some?
    ensures exists i :: 0 <= i < |lines| && lines[i] == LastWhere(lines, p).value && p(lines[i])
  {
    var n := |lines| - 1;
    if !p(lines[n]) {
      LastWhereFound(lines[..n], p);
      var i :| 0 <= i < n && lines[..n][i] == LastWhere(lines[..n], p).value && p(lines[..n][i]);
      assert lines[i] == lines[..n][i];
    }
  }

  /** A journal built by `append` can be resumed exactly when every effect key in it can be a dictionary key. */
  lemma GrownIsResumableIffHashable(hash: Body -> string, lines: seq<Record>)
    requires Grown(hash, lines) && lines != []
    ensures Resumable(hash, lines) <==> forall i :: 0 <= i < |lines| ==> HashableKey(lines[i])
  {
    GrownIsChained(hash, lines);
    GrownStates(hash, lines);
    forall i | 0 <= i < |lines| ensures Readable(lines[i]) <==> HashableKey(lines[i]) {
      assert FieldsThere(lines[i]);
    }
    forall key | LastPayload(lines, Text(key)).Some? ensures "state" in LastPayload(lines, Text(key)).value {
      LastWhereFound(lines, IsEffectOn(Text(key)));
      var i :| 0 <= i < |lines| && lines[i] == LastWhere(lines, IsEffectOn(Text(key))).value
        && IsEffectOn(Text(key))(lines[i]);
      assert FieldsThere(lines[i]);
    }
    hide Grown, Chained, LastPayload;
  }

  /** Two events that `append` accepts, whatever the digest, after which the journal cannot be resumed. */
  lemma ListKeyBlocksResume(hash: Body -> string, repo: Repo) returns (lines: seq<Record>)
    ensures Grown(hash, lines) && |lines| == 2 && !Resumable(hash, lines)
  {
    var create := map["intent" := Text("t"), "acceptance" := Text("t")];
    var effect := map["state" := Text("pending"), "key" := Items(["k"])];
    var b0 := Body(1, 0, None, "create", create, repo.revision, repo.treeDigest, repo.dirty, "");
    var first := [Record(b0, hash(b0))];
    var b1 := Body(1, 1, Some(hash(b0)), "effect", effect, repo.revision, repo.treeDigest, repo.dirty, "");
    lines := first + [Record(b1, hash(b1))];
    GrownExtend(hash, [], first[0]);
    assert [] + [first[0]] == first && first[..0] == [];
    assert LastWhere(first, IsEffectOn(Items(["k"]))) ==
             None by { assert LastWhere([], IsEffectOn(Items(["k"]))) == None; }
    assert Keyed([], Items(["k"])) && Keyed(first, Items(["k"]));
    assert Accepts(first, "effect", effect);
    GrownExtend(hash, first, Record(b1, hash(b1)));
    assert !Readable(lines[1]);
  }

  // ---------------------------------------------------------------- the effect protocol

  /** The states an effect key went through, in order. */
  function EffectStates(lines: seq<Record>, key: Value): seq<Value> {
    if lines == [] then []
    else
      var front, last := EffectStates(lines[..|lines| - 1], key), lines[|lines| - 1];
      if IsEffectOn(key)(last) then front + [FieldOf(last, "state")] else front
  }

  /** Every attempt is pending first and reconciled next; a confirmation ends the sequence. */
  predicate FollowsProtocol(states: seq<Value>) {
    forall i :: 0 <= i < |states| ==>
      if i % 2 == 0 then states[i] == Text("pending")
      else states[i] == Text("not-applied") || (states[i] == Text("confirmed") && i == |states| - 1)
  }

  lemma {:induction false} LastEffectIsLastState(lines: seq<Record>, key: Value)
    ensures var states, last := EffectStates(lines, key), LastWhere(lines, IsEffectOn(key));
            && (last.None? <==> states == [])
            && (last.Some? ==> states[|states| - 1] == FieldOf(last.value, "state"))
  {
    if lines != [] {
      LastEffectIsLastState(lines[..|lines| - 1], key);
    }
  }

  /** The state an effect may take next. */
  predicate Follows(states: seq<Value>, next: Value) {
    var n := |states| - 1;
    if next == Text("pending") then states == [] || states[n] == Text("not-applied")
    else (next == Text("confirmed") || next == Text("not-applied")) && states != [] && states[n] == Text("pending")
  }

  lemma ProtocolStep(states: seq<Value>, next: Value)
    requires FollowsProtocol(states)
    ensures FollowsProtocol(states + [next]) <==>
            Follows(states, next)
  {
    var n, longer := |states|, states + [next];
    assert longer[n] == next;
    if n > 0 { assert longer[n - 1] == states[n - 1]; }
    var ok := Follows(states, next);
    if ok {
      forall i | 0 <= i < n + 1
        ensures if i % 2 == 0 then longer[i] == Text("pending")
                else longer[i] == Text("not-applied") || (longer[i] == Text("confirmed") && i == n)
      {
        if i < n { assert longer[i] == states[i]; }
      }
    }
  }

  /**
   An effect event is accepted exactly when it names a key, continues that key's protocol, and brings
   a receipt unless it opens an attempt.
   */
  lemma EffectAcceptedIffProtocol(lines: seq<Record>, p: Payload)
    requires lines != [] && (Given(p, "key") ==> FollowsProtocol(EffectStates(lines, p["key"])))
    ensures Accepts(lines, "effect", p) <==>
            && Given(p, "key") && Keyed(lines, p["key"]) && "state" in p
            && FollowsProtocol(EffectStates(lines, p["key"]) + [p["state"]])
            && (p["state"] == Text("pending") || Given(p, "receipt"))
  {
    if Given(p, "key") && "state" in p {
      LastEffectIsLastState(lines, p["key"]);
      ProtocolStep(EffectStates(lines, p["key"]), p["state"]);
    }
  }

  /**
   So in every journal built by `append`, each key follows the protocol: confirmed is final, and no
   attempt is repeated unreconciled.
   */
  lemma {:induction false} JournalFollowsProtocol(hash: Body -> string, lines: seq<Record>, key: Value)
    requires Grown(hash, lines)
    ensures FollowsProtocol(EffectStates(lines, key))
    decreases |lines|
  {
    if lines != [] {
      var n := |lines| - 1;
      var front, last := lines[..n], lines[n];
      JournalFollowsProtocol(hash, front, key);
      if IsEffectOn(key)(last) {
        assert last.body.payload["key"] == key && front != [];
        EffectAcceptedIffProtocol(front, last.body.payload);
      }
    }
  }

  /**
   What `resume` reports as pending is exactly what was begun and not reconciled since: the effects with
   an odd number of events.
   */
  lemma PendingIsUnreconciled(hash: Body -> string, lines: seq<Record>, pending: map<string, Payload>, key: string)
    requires Grown(hash, lines) && PendingEffects(lines, pending)
    ensures key in pending <==> |EffectStates(lines, Text(key))| % 2 == 1
  {
    hide *;
    JournalFollowsProtocol(hash, lines, Text(key));
    LastStateIsLastPayload(hash, lines, pending, key);
    if EffectStates(lines, Text(key)) != [] { LastOfProtocol(EffectStates(lines, Text(key))); }
  }

  lemma LastOfProtocol(states: seq<Value>)
    requires FollowsProtocol(states) && states != []
    ensures states[|states| - 1] == Text("pending") <==> |states| % 2 == 1
  {
    var n := |states| - 1;
    assert if n % 2 == 0 then states[n] == Text("pending")
           else states[n] == Text("not-applied") || states[n] == Text("confirmed");
  }

  lemma LastStateIsLastPayload(hash: Body -> string, lines: seq<Record>, pending: map<string, Payload>, key: string)
    requires Grown(hash, lines) && PendingEffects(lines, pending)
    ensures var states := EffectStates(lines, Text(key));
            key in pending <==> states != [] && states[|states| - 1] == Text("pending")
  {
    LastEffectIsLastState(lines, Text(key));
    GrownStates(hash, lines);
    hide Grown, EffectStates, LastWhere;
    if LastWhere(lines, IsEffectOn(Text(key))).Some? {
      LastWhereFound(lines, IsEffectOn(Text(key)));
      var i :| 0 <= i < |lines| && lines[i] == LastWhere(lines, IsEffectOn(Text(key))).value
        && IsEffectOn(Text(key))(lines[i]);
      assert FieldsThere(lines[i]);
    }
  }

  // ---------------------------------------------------------------- the task's states

  function TaskStates(lines: seq<Record>): seq<Value> {
    if lines == [] then [Text("planned")]
    else
      var front, last := TaskStates(lines[..|lines| - 1]), lines[|lines| - 1];
      if IsTransition(last) then front + [FieldOf(last, "state")] else front
  }

  /** A walk in the transition table from `planned`. */
  predicate IsTaskPath(states: seq<Value>) {
    && |states| > 0 && states[0] == Text("planned")
    && forall i :: 0 < i < |states| ==> AllowedAt(states, i)
  }

  predicate AllowedAt(states: seq<Value>, i: int)
    requires 0 < i < |states|
  {
    states[i - 1].Text? && states[i].Text? && states[i].text in Transitions(states[i - 1].text)
  }

  lemma {:induction false} JournalIsTaskPath(hash: Body -> string, lines: seq<Record>)
    requires Grown(hash, lines)
    ensures IsTaskPath(TaskStates(lines))
    ensures TaskStates(lines)[|TaskStates(lines)| - 1] == CurrentState(lines)
    decreases |lines|
  {
    if lines != [] {
      var n := |lines| - 1;
      JournalIsTaskPath(hash, lines[..n]);
      var front, states := TaskStates(lines[..n]), TaskStates(lines);
      if IsTransition(lines[n]) {
        TransitionExtends(lines[..n], lines[n], front);
      }
    }
  }

  lemma TransitionExtends(front: seq<Record>, last: Record, states: seq<Value>)
    requires IsTransition(last) && Accepts(front, "transition", last.body.payload)
    requires IsTaskPath(states) && states[|states| - 1] == CurrentState(front)
    ensures IsTaskPath(states + [FieldOf(last, "state")])
  {
    var longer := states + [FieldOf(last, "state")];
    forall i | 0 < i < |longer| ensures AllowedAt(longer, i) {
      if i < |states| { assert AllowedAt(states, i); }
    }
  }

  lemma NothingAfterAccepted(states: seq<Value>, i: int)
    requires IsTaskPath(states) && 0 <= i < |states| - 1
    ensures states[i] != Text("accepted")
  {
    assert AllowedAt(states, i + 1);
  }

  /** Acceptance ends a task: no state follows it. */
  lemma AcceptedIsLast(hash: Body -> string, lines: seq<Record>, i: int)
    requires Grown(hash, lines) && 0 <= i < |TaskStates(lines)| && TaskStates(lines)[i] == Text("accepted")
    ensures i == |TaskStates(lines)| - 1
    ensures forall p :: !AcceptsTransition(lines, p)
  {
    JournalIsTaskPath(hash, lines);
    var states := TaskStates(lines);
    if i < |states| - 1 { NothingAfterAccepted(states, i); }
  }

  /** Where each state can be entered from. */
  function EntriesOf(state: string): set<string> {
    match state
    case "implementing" => {"planned", "validating", "review-ready", "blocked", "failed"}
    case "validating" => {"implementing", "blocked"}
    case "review-ready" => {"validating"}
    case "accepted" => {"review-ready"}
    case "blocked" => {"planned", "implementing", "validating", "review-ready"}
    case "failed" => {"implementing", "validating", "blocked"}
    case _ => {}
  }

  lemma TransitionsAreEntries(from: string, to: string)
    ensures to in Transitions(from) <==> from in EntriesOf(to)
  {
  }

  /** A transition is accepted exactly when the state it names can be entered from the current one. */
  lemma TransitionAcceptedIffEntered(lines: seq<Record>, p: Payload)
    requires lines != []
    ensures Accepts(lines, "transition", p) <==>
            && "state" in p && p["state"].Text? && CurrentState(lines).Text?
            && CurrentState(lines).text in EntriesOf(p["state"].text)
  {
    hide CurrentState;
    if "state" in p && p["state"].Text? && CurrentState(lines).Text? {
      TransitionsAreEntries(CurrentState(lines).text, p["state"].text);
    }
  }

  lemma EnteredFrom(states: seq<Value>, i: int, to: string)
    requires IsTaskPath(states) && 0 < i < |states| && states[i] == Text(to)
    ensures states[i - 1].Text? && states[i - 1].text in EntriesOf(to)
  {
    assert AllowedAt(states, i);
    TransitionsAreEntries(states[i - 1].text, to);
  }

  /** No task is accepted but straight from a review, and none is reviewed but straight from validation. */
  lemma AcceptanceIsReviewed(hash: Body -> string, lines: seq<Record>, i: int)
    requires Grown(hash, lines) && 0 <= i < |TaskStates(lines)| && TaskStates(lines)[i] == Text("accepted")
    ensures i >= 4
    ensures TaskStates(lines)[i - 1] == Text("review-ready") && TaskStates(lines)[i - 2] == Text("validating")
  {
    JournalIsTaskPath(hash, lines);
    var states := TaskStates(lines);
    hide TaskStates, Grown;
    EnteredFrom(states, i, "accepted");
    EnteredFrom(states, i - 1, "review-ready");
    EnteredFrom(states, i - 2, "validating");
    var before := states[i - 3].text;
    assert before != "planned";
  }

  /** A journal that goes on to the state `next` by one more event of `append`. */
  lemma OneMoreTransition(hash: Body -> string, lines: seq<Record>, next: string) returns (longer: seq<Record>)
    requires Grown(hash, lines) && lines != []
    requires CurrentState(lines).Text? && CurrentState(lines).text in EntriesOf(next)
    ensures Grown(hash, longer) && lines <= longer && CurrentState(longer) == Text(next)
  {
    var p: Payload := map["state" := Text(next)];
    var body := Body(1, |lines|, PreviousDigest(lines), "transition", p, "", "", false, "");
    var record := Record(body, hash(body));
    longer := lines + [record];
    TransitionAcceptedIffEntered(lines, p);
    GrownExtend(hash, lines, record);
    LastWhereSnoc(lines, record, IsTransition);
  }

  /** A shortest way from each state to acceptance: its next state and its length. */
  function WayOn(state: string): (string, nat) {
    match state
    case "planned" => ("implementing", 4)
    case "failed" => ("implementing", 4)
    case "implementing" => ("validating", 3)
    case "blocked" => ("validating", 3)
    case "validating" => ("review-ready", 2)
    case "review-ready" => ("accepted", 1)
    case _ => ("", 0)
  }

  lemma WayLeadsOn(state: string)
    requires WayOn(state).1 > 0
    ensures var next := WayOn(state).0;
            state in EntriesOf(next) && WayOn(next).1 < WayOn(state).1 && (WayOn(next).1 == 0 ==> next == "accepted")
  {
  }

  lemma {:induction false} TaskGoesOn(hash: Body -> string, lines: seq<Record>, state: string)
    returns (longer: seq<Record>)
    requires Grown(hash, lines) && lines != [] && CurrentState(lines) == Text(state)
    requires WayOn(state).1 == 0 ==> state == "accepted"
    ensures Grown(hash, longer) && lines <= longer && CurrentState(longer) == Text("accepted")
    decreases WayOn(state).1
  {
    hide *;
    if WayOn(state).1 == 0 {
      longer := lines;
    } else {
      WayLeadsOn(state);
      longer := OneMoreTransition(hash, lines, WayOn(state).0);
      longer := TaskGoesOn(hash, longer, WayOn(state).0);
    }
  }

  lemma StateIsKnown(states: seq<Value>)
    requires IsTaskPath(states)
    ensures var last := states[|states| - 1]; last.Text? && (WayOn(last.text).1 == 0 ==> last.text == "accepted")
  {
    if |states| > 1 { assert AllowedAt(states, |states| - 1); }
  }

  /** As long as a task is not accepted it still can be, whatever its journal holds. */
  lemma TaskCanStillBeAccepted(hash: Body -> string, lines: seq<Record>) returns (longer: seq<Record>)
    requires Grown(hash, lines) && lines != []
    ensures Grown(hash, longer) && lines <= longer && CurrentState(longer) == Text("accepted")
  {
    hide Grown, CurrentState, WayOn, TaskStates;
    JournalIsTaskPath(hash, lines);
    StateIsKnown(TaskStates(lines));
    longer := TaskGoesOn(hash, lines, CurrentState(lines).text);
  }
}
