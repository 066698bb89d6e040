/**
 Pointers as the bridge between the diff and the normalizer: masking where the diff points removes
 what it reported, and a golden recorded from a response replays against that response.
 */
module JsonReplay {
  import opened Prelude
  import opened Text
  import opened JsonMasking
  import opened JsonDiff
  import opened JsonPlaces

  // ---------------------------------------------------------------- paths

  /** The path `diff` builds on its way down. */
  function Render(tokens: seq<string>): string {
    if tokens == [] then "" else Render(tokens[..|tokens| - 1]) + "/" + Escape(tokens[|tokens| - 1])
  }

  lemma {:induction false} SplitRender(tokens: seq<string>)
    ensures var parts := Split(Render(tokens), '/');
            |parts| == |tokens| + 1 && parts[0] == "" && forall i :: 0 <= i < |tokens| ==>
                parts[i + 1] == Escape(tokens[i])
  {
    if tokens != [] {
      var n := |tokens| - 1;
      SplitRender(tokens[..n]);
      EscapeHasNoSlash(tokens[n]);
      SplitAppend(Render(tokens[..n]), '/', Escape(tokens[n]));
    }
  }

  /** The pointer printed for a place, `<root>` included, names exactly that place to the normalizer. */
  lemma PrintedPointerReadsBack(tokens: seq<string>)
    ensures Tokens(Where(Render(tokens))) == tokens
  {
    SplitRender(tokens);
    if Render(tokens) == "" {
      assert tokens == [];
      SplitSingle("<root>", '/');
    } else {
      var parts := Split(Render(tokens), '/')[1..];
      forall i | 0 <= i < |tokens| ensures Unescape(parts[i]) == tokens[i] {
        UnescapeInverts(tokens[i]);
      }
    }
  }

  // ---------------------------------------------------------------- where values or types differ

  predicate IsBadKind(kind: Kind) {
    kind.ValueDiffers? || kind.TypeDiffers?
  }

  predicate BadHere(a: Json, b: Json) {
    if IsNumber(a) && IsNumber(b) then !SameNumber(a, b)
    else if !SameType(a, b) then true
    else !a.Dict? && !a.List? && a != b
  }

  /** The relative path `rel` leads to a place where a value or a type differs. */
  ghost predicate Bad(a: Json, b: Json, rel: seq<string>)
    decreases |rel|
  {
    if rel == [] then BadHere(a, b)
    else if a.Dict? && b.Dict? then
      rel[0] in a.fields && rel[0] in b.fields && Bad(a.fields[rel[0]], b.fields[rel[0]], rel[1..])
    else if a.List? && b.List? then
      exists i :: 0 <= i < |a.items| && i < |b.items| && rel[0] == ToDecimal(i) && Bad(a.items[i], b.items[i], rel[1..])
    else false
  }

  ghost predicate Reports(a: Json, b: Json, tokens: seq<string>, rel: seq<string>) {
    exists line :: line in Diff(a, b, Render(tokens)) && IsBadKind(line.kind)
      && line.where == Where(Render(tokens + rel))
  }

  lemma KeyLineIsReported(a: Json, b: Json, k: string, path: string, line: Line)
    requires a.Dict? && b.Dict? && k in a.fields && k in b.fields
    requires line in Diff(a.fields[k], b.fields[k], path + "/" + Escape(k))
    ensures line in Diff(a, b, path)
  {
    assert line in DiffKey(a, b, k, path);
    assert Diff(a, b, path) == DiffKeys(a, b, Sorted(a.fields.Keys + b.fields.Keys), path);
    hide *;
    DiffKeysHas(a, b, Sorted(a.fields.Keys + b.fields.Keys), path, line);
  }

  lemma ItemLineIsReported(a: Json, b: Json, i: nat, path: string, line: Line)
    requires a.List? && b.List? && i < |a.items| && i < |b.items|
    requires line in Diff(a.items[i], b.items[i], path + "/" + ToDecimal(i))
    ensures line in Diff(a, b, path)
  {
    assert line in DiffItem(a, b, i, path);
    hide DiffItem;
    ItemLineIsListed(a, b, path, Longer(a, b), i, line);
  }

  lemma BadLineHasKey(a: Json, b: Json, path: string, line: Line) returns (k: string)
    requires a.Dict? && b.Dict? && line in Diff(a, b, path) && IsBadKind(line.kind)
    ensures k in a.fields && k in b.fields && line in Diff(a.fields[k], b.fields[k], path + "/" + Escape(k))
  {
    DiffKeysHas(a, b, Sorted(a.fields.Keys + b.fields.Keys), path, line);
    k :| k in Sorted(a.fields.Keys + b.fields.Keys) && line in DiffKey(a, b, k, path);
  }

  lemma BadLineHasIndex(a: Json, b: Json, path: string, line: Line) returns (i: nat)
    requires a.List? && b.List? && line in Diff(a, b, path) && IsBadKind(line.kind)
    ensures i < |a.items| && i < |b.items| && line in Diff(a.items[i], b.items[i], path + "/" + ToDecimal(i))
  {
    DiffItemsHas(a, b, path, Longer(a, b), line);
    i :| i < Longer(a, b) && line in DiffItem(a, b, i, path);
  }

  /** Going one step down: the child's place is the same place seen from the parent. */
  lemma StepDown(tokens: seq<string>, t: string, rel: seq<string>)
    ensures Render(tokens + [t]) == Render(tokens) + "/" + Escape(t)
    ensures Render(tokens + [t] + rel) == Render(tokens + ([t] + rel))
  {
    assert tokens + [t] + rel == tokens + ([t] + rel);
  }

  /** Wherever a value or type differs, a line says so at exactly that pointer. */
  lemma {:induction false} BadIsReported(a: Json, b: Json, tokens: seq<string>, rel: seq<string>)
    requires Bad(a, b, rel)
    ensures Reports(a, b, tokens, rel)
    decreases |rel|
  {
    var path := Render(tokens);
    if rel == [] {
      assert tokens + rel == tokens;
      assert Diff(a, b, path)[0] in Diff(a, b, path);
    } else {
      var t, rest := rel[0], rel[1..];
      assert [t] + rest == rel;
      StepDown(tokens, t, rest);
      hide Diff, Render, Escape, Where;
      if a.Dict? {
        BadIsReported(a.fields[t], b.fields[t], tokens + [t], rest);
        var line :| line in Diff(a.fields[t], b.fields[t], Render(tokens + [t])) && IsBadKind(line.kind)
          && line.where == Where(Render(tokens + [t] + rest));
        KeyLineIsReported(a, b, t, path, line);
      } else {
        var i :| 0 <= i < |a.items| && i < |b.items| && t == ToDecimal(i) && Bad(a.items[i], b.items[i], rest);
        BadIsReported(a.items[i], b.items[i], tokens + [t], rest);
        EscapeKeepsDigits(t);
        var line :| line in Diff(a.items[i], b.items[i], Render(tokens + [t])) && IsBadKind(line.kind)
          && line.where == Where(Render(tokens + [t] + rest));
        ItemLineIsReported(a, b, i, path, line);
      }
    }
  }

  lemma BadLineHere(a: Json, b: Json, path: string, line: Line)
    requires line in Diff(a, b, path) && IsBadKind(line.kind) && !(a.Dict? && b.Dict?) && !(a.List? && b.List?)
    ensures Bad(a, b, []) && line.where == Where(path)
  {
  }

  lemma BadBelowKey(a: Json, b: Json, k: string, rel: seq<string>)
    requires a.Dict? && b.Dict? && k in a.fields && k in b.fields && Bad(a.fields[k], b.fields[k], rel)
    ensures Bad(a, b, [k] + rel)
  {
    assert ([k] + rel)[1..] == rel;
  }

  lemma BadBelowIndex(a: Json, b: Json, i: nat, rel: seq<string>)
    requires a.List? && b.List? && i < |a.items| && i < |b.items| && Bad(a.items[i], b.items[i], rel)
    ensures Bad(a, b, [ToDecimal(i)] + rel)
  {
    var whole := [ToDecimal(i)] + rel;
    assert whole[1..] == rel && whole[0] == ToDecimal(i);
  }

  /** Every line about a value or a type points at a place where it differs. */
  lemma {:induction false} ReportedIsBad(a: Json, b: Json, tokens: seq<string>, line: Line) returns (rel: seq<string>)
    requires line in Diff(a, b, Render(tokens)) && IsBadKind(line.kind)
    ensures Bad(a, b, rel) && line.where == Where(Render(tokens + rel))
    decreases a
  {
    hide *;
    if a.Dict? && b.Dict? {
      var k := BadLineHasKey(a, b, Render(tokens), line);
      StepDown(tokens, k, []);
      var r := ReportedIsBad(a.fields[k], b.fields[k], tokens + [k], line);
      rel := [k] + r;
      StepDown(tokens, k, r);
      BadBelowKey(a, b, k, r);
    } else if a.List? && b.List? {
      var i := BadLineHasIndex(a, b, Render(tokens), line);
      var t := ToDecimal(i);
      DigitsPlain(i);
      StepDown(tokens, t, []);
      var r := ReportedIsBad(a.items[i], b.items[i], tokens + [t], line);
      rel := [t] + r;
      StepDown(tokens, t, r);
      BadBelowIndex(a, b, i, r);
    } else {
      rel := [];
      assert tokens + rel == tokens;
      BadLineHere(a, b, Render(tokens), line);
    }
  }

  lemma DigitsPlain(i: nat)
    ensures Escape(ToDecimal(i)) == ToDecimal(i)
  {
    EscapeKeepsDigits(ToDecimal(i));
  }

  // ---------------------------------------------------------------- masking what was reported

  function MaskAll(v: Json, ts: seq<seq<string>>): Json {
    if ts == [] then v else MaskAt(MaskAll(v, ts[..|ts| - 1]), ts[|ts| - 1])
  }

  function TokensOf(pointers: seq<string>): (r: seq<seq<string>>)
    ensures |r| == |pointers| && forall i :: 0 <= i < |r| ==> r[i] == Tokens(pointers[i])
  {
    seq(|pointers|, i requires 0 <= i < |pointers| => Tokens(pointers[i]))
  }

  lemma {:induction false} MaskAllIsMaskPointers(v: Json, pointers: seq<string>)
    ensures MaskAll(v, TokensOf(pointers)) == MaskPointers(v, pointers)
    decreases |pointers|
  {
    if pointers != [] {
      var n := |pointers| - 1;
      MaskAllIsMaskPointers(v, pointers[..n]);
      assert TokensOf(pointers)[..n] == TokensOf(pointers[..n]);
    }
  }

  lemma {:induction false} MaskAllRoot(v: Json, ts: seq<seq<string>>)
    requires [] in ts
    ensures MaskAll(v, ts) == MASK
    decreases |ts|
  {
    var n := |ts| - 1;
    if ts[n] != [] {
      assert [] in ts[..n];
      MaskAllRoot(v, ts[..n]);
    }
  }

  lemma {:induction false} MaskAllScalar(v: Json, ts: seq<seq<string>>)
    requires [] !in ts && !v.Dict? && !v.List?
    ensures MaskAll(v, ts) == v
    decreases |ts|
  {
    if ts != [] { MaskAllScalar(v, ts[..|ts| - 1]); }
  }

  /** The masks that reach the entry `k`, seen from there. */
  function BelowKey(ts: seq<seq<string>>, k: string): seq<seq<string>> {
    if ts == [] then []
    else
      var front, t := BelowKey(ts[..|ts| - 1], k), ts[|ts| - 1];
      if t != [] && SelectsKey(t[0], k) then front + [t[1..]] else front
  }

  function BelowIndex(ts: seq<seq<string>>, i: nat): seq<seq<string>> {
    if ts == [] then []
    else
      var front, t := BelowIndex(ts[..|ts| - 1], i), ts[|ts| - 1];
      if t != [] && SelectsIndex(t[0], i) then front + [t[1..]] else front
  }

  lemma {:induction false} BelowKeyHas(ts: seq<seq<string>>, k: string, rel: seq<string>)
    requires [k] + rel in ts
    ensures rel in BelowKey(ts, k)
    decreases |ts|
  {
    var n := |ts| - 1;
    if ts[n] == [k] + rel {
      assert ts[n][1..] == rel;
    } else {
      assert [k] + rel in ts[..n];
      BelowKeyHas(ts[..n], k, rel);
    }
  }

  lemma {:induction false} BelowIndexHas(ts: seq<seq<string>>, i: nat, rel: seq<string>)
    requires [ToDecimal(i)] + rel in ts
    ensures rel in BelowIndex(ts, i)
    decreases |ts|
  {
    var n := |ts| - 1;
    DecimalRoundTrip(i);
    if ts[n] == [ToDecimal(i)] + rel {
      assert ts[n][1..] == rel && ts[n][0] == ToDecimal(i);
    } else {
      assert [ToDecimal(i)] + rel in ts[..n];
      BelowIndexHas(ts[..n], i, rel);
    }
  }

  lemma {:induction false} MaskAllDict(v: Json, ts: seq<seq<string>>)
    requires [] !in ts && v.Dict?
    ensures var m := MaskAll(v, ts);
            m.Dict? && m.fields.Keys == v.fields.Keys && forall k :: k in v.fields ==>
                m.fields[k] == MaskAll(v.fields[k], BelowKey(ts, k))
    decreases |ts|
  {
    if ts != [] {
      var n := |ts| - 1;
      MaskAllDict(v, ts[..n]);
      var front, m := MaskAll(v, ts[..n]), MaskAll(v, ts);
      assert ts[n] in ts;
      assert m == MaskAt(front, ts[n]);
      forall k | k in v.fields ensures m.fields[k] == MaskAll(v.fields[k], BelowKey(ts, k)) {
        var below := BelowKey(ts[..n], k);
        if SelectsKey(ts[n][0], k) {
          assert (below + [ts[n][1..]])[..|below|] == below;
        }
      }
    }
  }

  lemma {:induction false} MaskAllList(v: Json, ts: seq<seq<string>>)
    requires [] !in ts && v.List?
    ensures var m := MaskAll(v, ts);
            m.List? && |m.items| == |v.items| && forall i :: 0 <= i < |v.items| ==>
                m.items[i] == MaskAll(v.items[i], BelowIndex(ts, i))
    decreases |ts|
  {
    if ts != [] {
      var n := |ts| - 1;
      MaskAllList(v, ts[..n]);
      var front, m := MaskAll(v, ts[..n]), MaskAll(v, ts);
      assert ts[n] in ts;
      assert m == MaskAt(front, ts[n]);
      forall i | 0 <= i < |v.items| ensures m.items[i] == MaskAll(v.items[i], BelowIndex(ts, i)) {
        var below := BelowIndex(ts[..n], i);
        if SelectsIndex(ts[n][0], i) {
          assert (below + [ts[n][1..]])[..|below|] == below;
        }
      }
    }
  }

  /** Masking both values at least wherever they are bad leaves no bad place. */
  lemma {:induction false} MaskedBadIsGone(a: Json, b: Json, ts: seq<seq<string>>, rel: seq<string>)
    requires forall r :: Bad(a, b, r) ==> r in ts
    ensures !Bad(MaskAll(a, ts), MaskAll(b, ts), rel)
    decreases a, 1
  {
    if [] in ts {
      MaskAllRoot(a, ts);
      MaskAllRoot(b, ts);
    } else {
      assert !Bad(a, b, []);
      if a.Dict? && b.Dict? {
        MaskedBadKeyIsGone(a, b, ts, rel);
      } else if a.List? && b.List? {
        MaskedBadItemIsGone(a, b, ts, rel);
      } else {
        MaskAllScalar(a, ts);
        MaskAllScalar(b, ts);
      }
    }
  }

  lemma {:induction false} MaskedBadKeyIsGone(a: Json, b: Json, ts: seq<seq<string>>, rel: seq<string>)
    requires a.Dict? && b.Dict? && [] !in ts && forall r :: Bad(a, b, r) ==> r in ts
    ensures !Bad(MaskAll(a, ts), MaskAll(b, ts), rel)
    decreases a, 0
  {
    MaskAllDict(a, ts);
    MaskAllDict(b, ts);
    hide MaskAll;
    if rel != [] && rel[0] in a.fields && rel[0] in b.fields {
      var k := rel[0];
      forall r | Bad(a.fields[k], b.fields[k], r) ensures r in BelowKey(ts, k) {
        BadBelowKey(a, b, k, r);
        BelowKeyHas(ts, k, r);
      }
      MaskedBadIsGone(a.fields[k], b.fields[k], BelowKey(ts, k), rel[1..]);
    }
  }

  lemma {:induction false} MaskedBadItemIsGone(a: Json, b: Json, ts: seq<seq<string>>, rel: seq<string>)
    requires a.List? && b.List? && [] !in ts && forall r :: Bad(a, b, r) ==> r in ts
    ensures !Bad(MaskAll(a, ts), MaskAll(b, ts), rel)
    decreases a, 0
  {
    MaskAllList(a, ts);
    MaskAllList(b, ts);
    hide MaskAll;
    if rel != [] {
      forall i | 0 <= i < |a.items| && i < |b.items|
        ensures !Bad(MaskAll(a, ts).items[i], MaskAll(b, ts).items[i], rel[1..])
      {
        forall r | Bad(a.items[i], b.items[i], r) ensures r in BelowIndex(ts, i) {
          BadBelowIndex(a, b, i, r);
          BelowIndexHas(ts, i, r);
        }
        MaskedBadIsGone(a.items[i], b.items[i], BelowIndex(ts, i), rel[1..]);
      }
    }
  }

  /**
   Masking both documents at every pointer the diff reported for a value or a type, and possibly at
   more, leaves a diff without such lines.
   */
  lemma MaskingReportedPointersSilencesThem(expected: Json, actual: Json, pointers: seq<string>)
    requires forall line :: line in Diff(expected, actual, "") && IsBadKind(line.kind) ==> line.where in pointers
    ensures forall line :: line in Diff(MaskPointers(expected, pointers), MaskPointers(actual, pointers), "") ==>
              !IsBadKind(line.kind)
  {
    var ts := TokensOf(pointers);
    MaskAllIsMaskPointers(expected, pointers);
    MaskAllIsMaskPointers(actual, pointers);
    forall rel | Bad(expected, actual, rel) ensures rel in ts {
      BadIsMasked(expected, actual, pointers, rel);
    }
    hide Diff, Bad, MaskAll, MaskPointers, TokensOf;
    forall line | line in Diff(MaskPointers(expected, pointers), MaskPointers(actual, pointers), "")
      ensures !IsBadKind(line.kind)
    {
      if IsBadKind(line.kind) {
        var rel := ReportedIsBad(MaskAll(expected, ts), MaskAll(actual, ts), [], line);
        MaskedBadIsGone(expected, actual, ts, rel);
      }
    }
  }

  lemma BadIsMasked(expected: Json, actual: Json, pointers: seq<string>, rel: seq<string>)
    requires forall line :: line in Diff(expected, actual, "") && IsBadKind(line.kind) ==> line.where in pointers
    requires Bad(expected, actual, rel)
    ensures rel in TokensOf(pointers)
  {
    BadIsReported(expected, actual, [], rel);
    assert [] + rel == rel;
    hide Diff, Bad;
    var line :| line in Diff(expected, actual, "") && IsBadKind(line.kind) && line.where == Where(Render(rel));
    PrintedPointerReadsBack(rel);
    var i :| 0 <= i < |pointers| && pointers[i] == line.where;
    assert TokensOf(pointers)[i] == rel;
  }

  // ---------------------------------------------------------------- recording and replaying

  datatype Response = Response(status: int, body: Json)

  /** What a case overrides for one server edition; a `skip` scopes the case out. */
  datatype Variant = Variant(skip: bool, request: Option<string>, mask: Option<seq<string>>, response: Option<Response>)

  datatype Case = Case(request: string, mask: seq<string>, response: Response, editions: map<string, Variant>)

  datatype Outcome = Skipped | Passed | Failed

  function VariantOf(c: Case, edition: Option<string>): Option<Variant> {
    if edition.Some? && edition.value in c.editions then Some(c.editions[edition.value]) else None
  }

  predicate IsSkipped(c: Case, edition: Option<string>) {
    VariantOf(c, edition).Some? && VariantOf(c, edition).value.skip
  }

  function RequestOf(c: Case, edition: Option<string>): string {
    match VariantOf(c, edition)
    case Some(v) => if v.request.Some? then v.request.value else c.request
    case None => c.request
  }

  /** A variant's own list, even an empty one, replaces the masks of the case. */
  function MaskOf(c: Case, edition: Option<string>): seq<string> {
    match VariantOf(c, edition)
    case Some(v) => if v.mask.Some? then v.mask.value else c.mask
    case None => c.mask
  }

  function GoldenOf(c: Case, edition: Option<string>): Response {
    match VariantOf(c, edition)
    case Some(v) => if v.response.Some? then v.response.value else c.response
    case None => c.response
  }

  function Normal(body: Json, keys: set<string>, pointers: seq<string>): Json {
    MaskPointers(MaskKeys(body, keys), pointers)
  }

  /** The golden document after recording; an edition run touches only cases that opted in. */
  function Recorded(c: Case, edition: Option<string>, keys: set<string>, server: string -> Response): Case {
    var answer := server(RequestOf(c, edition));
    var golden := Response(answer.status, Normal(answer.body, keys, MaskOf(c, edition)));
    if IsSkipped(c, edition) then c
    else if edition.None? then c.(response := golden)
    else
      match VariantOf(c, edition)
      case None => c
      case Some(v) => c.(editions := c.editions[edition.value := v.(response := Some(golden))])
  }

  ghost function Replayed(c: Case, edition: Option<string>, keys: set<string>, server: string -> Response): Outcome {
    if IsSkipped(c, edition) then Skipped
    else
      var answer, golden, mask := server(RequestOf(c, edition)), GoldenOf(c, edition), MaskOf(c, edition);
      if answer.status == golden.status
         && Diff(Normal(golden.body, keys, mask), Normal(answer.body, keys, mask), "") == []
      then Passed else Failed
  }

  /** How many of the first `n` cases end this way. */
  ghost function CountOutcome(cases: seq<Case>, edition: Option<string>, keys: set<string>, server: string -> Response,
                              o: Outcome, n: nat): nat
    requires n <= |cases|
  {
    if n == 0 then 0
    else CountOutcome(cases, edition, keys, server, o, n - 1) + if Replayed(cases[n - 1], edition, keys, server) == o
      then 1 else 0
  }

  /** Recording writes a case unless it is scoped out or has not opted in to the edition. */
  predicate Records(c: Case, edition: Option<string>) {
    !IsSkipped(c, edition) && (edition.Some? ==> edition.value in c.editions)
  }

  function CountRecords(cases: seq<Case>, edition: Option<string>, n: nat): nat
    requires n <= |cases|
  {
    if n == 0 then 0 else CountRecords(cases, edition, n - 1) + if Records(cases[n - 1], edition) then 1 else 0
  }

  method RecordOne(c: Case, edition: Option<string>, keys: set<string>, server: string -> Response)
    returns (wrote: bool, d: Case)
    requires !IsSkipped(c, edition)
    ensures d == Recorded(c, edition, keys, server) && wrote == Records(c, edition)
  {
    var answer := server(RequestOf(c, edition));
    var actual := Normalize(answer.body, keys, MaskOf(c, edition));
    if edition.Some? {
      var variant := VariantOf(c, edition);
      if variant.None? { return false, c; }
      var stored := variant.value.(response := Some(Response(answer.status, actual)));
      d := c.(editions := c.editions[edition.value := stored]);
    } else {
      d := c.(response := Response(answer.status, actual));
    }
    wrote := true;
  }

  method ReplayOne(c: Case, edition: Option<string>, keys: set<string>, server: string -> Response)
    returns (failed: bool)
    requires !IsSkipped(c, edition)
    ensures Replayed(c, edition, keys, server) == if failed then Failed else Passed
  {
    var pointers := MaskOf(c, edition);
    var answer := server(RequestOf(c, edition));
    var actual := Normalize(answer.body, keys, pointers);
    var golden := GoldenOf(c, edition);
    var expected := Normalize(golden.body, keys, pointers);
    var lines := RunDiff(expected, actual, "");
    failed := answer.status != golden.status || lines != [];
  }

  lemma SkippedUntouched(c: Case, edition: Option<string>, keys: set<string>, server: string -> Response)
    ensures IsSkipped(c, edition) <==> Replayed(c, edition, keys, server) == Skipped
    ensures IsSkipped(c, edition) ==> Recorded(c, edition, keys, server) == c && !Records(c, edition)
  {
  }

  /** The first cases as recording leaves them. */
  ghost predicate RecordedUpTo(cases: seq<Case>, written: seq<Case>, edition: Option<string>, keys: set<string>,
                               server: string -> Response) {
    |written| <= |cases| && forall i :: 0 <= i < |written| ==> written[i] == Recorded(cases[i], edition, keys, server)
  }

  lemma RecordedOneMore(cases: seq<Case>, written: seq<Case>, edition: Option<string>, keys: set<string>,
                        server: string -> Response, d: Case)
    requires RecordedUpTo(cases, written, edition, keys, server) && |written| < |cases|
    requires d == Recorded(cases[|written|], edition, keys, server)
    ensures RecordedUpTo(cases, written + [d], edition, keys, server)
  {
  }

  /** The case loop when re-recording: every golden it may write, and how many it wrote. */
  method RecordCases(cases: seq<Case>, edition: Option<string>, keys: set<string>, server: string -> Response)
    returns (skips: nat, recorded: nat, written: seq<Case>)
    ensures |written| == |cases| && RecordedUpTo(cases, written, edition, keys, server)
    ensures skips == CountOutcome(cases, edition, keys, server, Skipped, |cases|)
            && recorded == CountRecords(cases, edition, |cases|)
  {
    skips, recorded, written := 0, 0, [];
    assert RecordedUpTo(cases, written, edition, keys, server);
    for i := 0 to |cases|
      invariant |written| == i && RecordedUpTo(cases, written, edition, keys, server)
      invariant skips == CountOutcome(cases, edition, keys, server, Skipped, i)
                && recorded == CountRecords(cases, edition, i)
    {
      hide *;
      var c := cases[i];
      SkippedUntouched(c, edition, keys, server);
      CountsOneMore(cases, edition, keys, server, i);
      if IsSkipped(c, edition) {
        skips := skips + 1;
        RecordedOneMore(cases, written, edition, keys, server, c);
        written := written + [c];
        continue;
      }
      var wrote, d := RecordOne(c, edition, keys, server);
      if wrote { recorded := recorded + 1; }
      RecordedOneMore(cases, written, edition, keys, server, d);
      written := written + [d];
    }
  }

  lemma CountsOneMore(cases: seq<Case>, edition: Option<string>, keys: set<string>, server: string -> Response, i: nat)
    requires i < |cases|
    ensures CountOutcome(cases, edition, keys, server, Skipped, i + 1) ==
            CountOutcome(cases, edition, keys, server, Skipped, i) + if IsSkipped(cases[i], edition) then 1 else 0
    ensures CountRecords(cases, edition, i + 1) == CountRecords(cases, edition, i) + if Records(cases[i], edition)
            then 1 else 0
  {
    SkippedUntouched(cases[i], edition, keys, server);
  }

  /** The case loop when replaying: how many cases were scoped out and how many failed. */
  method ReplayCases(cases: seq<Case>, edition: Option<string>, keys: set<string>, server: string -> Response)
    returns (failures: nat, skips: nat)
    ensures skips == CountOutcome(cases, edition, keys, server, Skipped, |cases|)
    ensures failures == CountOutcome(cases, edition, keys, server, Failed, |cases|)
  {
    failures, skips := 0, 0;
    for i := 0 to |cases|
      invariant skips == CountOutcome(cases, edition, keys, server, Skipped, i)
      invariant failures == CountOutcome(cases, edition, keys, server, Failed, i)
    {
      if IsSkipped(cases[i], edition) {
        skips := skips + 1;
        continue;
      }
      var failed := ReplayOne(cases[i], edition, keys, server);
      if failed { failures := failures + 1; }
    }
  }

  /**
   A golden recorded from a response passes against that same response if, and only if, no NaN is left
   in the normalized body: in the base lane always, in an edition's lane for the cases that opted in.
   */
  lemma RecordedGoldenReplays(c: Case, edition: Option<string>, keys: set<string>, server: string -> Response)
    requires Records(c, edition)
    ensures Replayed(Recorded(c, edition, keys, server), edition, keys, server) == Passed <==>
            !HasNaN(Normal(server(RequestOf(c, edition)).body, keys, MaskOf(c, edition)))
  {
    var d := Recorded(c, edition, keys, server);
    assert !IsSkipped(d, edition) && RequestOf(d, edition) == RequestOf(c, edition)
           && MaskOf(d, edition) == MaskOf(c, edition);
    var answer, mask := server(RequestOf(c, edition)), MaskOf(c, edition);
    var actual := Normal(answer.body, keys, mask);
    assert GoldenOf(d, edition) == Response(answer.status, actual);
    NormalizeIdempotent(answer.body, keys, mask);
    EmptyDiffIsEquivalence(actual, actual, "");
    EquivalentReflexive(actual);
  }

  /**
   A response passes against any golden it differs from at masked places alone, whatever values stand
   there, unless a NaN is left; in each lane the masks are the ones that lane uses.
   */
  lemma ReplayIgnoresMaskedPlaces(c: Case, edition: Option<string>, keys: set<string>, server: string -> Response)
    requires !IsSkipped(c, edition)
    requires server(RequestOf(c, edition)).status == GoldenOf(c, edition).status
    requires SameOutside(MaskedPlaces(keys, MaskOf(c, edition)), GoldenOf(c, edition).body,
                         server(RequestOf(c, edition)).body)
    ensures Replayed(c, edition, keys, server) == Passed <==>
            !HasNaN(Normal(GoldenOf(c, edition).body, keys, MaskOf(c, edition)))
  {
    var answer, golden, mask := server(RequestOf(c, edition)), GoldenOf(c, edition), MaskOf(c, edition);
    NormalizedAlikeIffSameOutside(golden.body, answer.body, keys, mask);
    var normal := Normal(golden.body, keys, mask);
    EmptyDiffIsEquivalence(normal, normal, "");
    EquivalentReflexive(normal);
  }

  /** The case as an edition sees it, written as a case of the base lane. */
  function Overridden(c: Case, v: Variant): Case {
    Case(if v.request.Some? then v.request.value else c.request, if v.mask.Some? then v.mask.value else c.mask,
         if v.response.Some? then v.response.value else c.response, map[])
  }

  /** An edition's lane replays each field its variant overrides, and the fields of the case otherwise. */
  lemma EditionReplaysOverrides(c: Case, edition: string, keys: set<string>, server: string -> Response)
    ensures edition !in c.editions ==>
              Replayed(c, Some(edition), keys, server) == Replayed(c, None, keys, server)
    ensures edition in c.editions ==>
              Replayed(c, Some(edition), keys, server) ==
              if c.editions[edition].skip then Skipped
              else Replayed(Overridden(c, c.editions[edition]), None, keys, server)
  {
    if edition in c.editions {
      var v := c.editions[edition];
      var d := Overridden(c, v);
      assert RequestOf(c, Some(edition)) == RequestOf(d, None) && MaskOf(c, Some(edition)) == MaskOf(d, None)
             && GoldenOf(c, Some(edition)) == GoldenOf(d, None);
    }
  }

  /**
   Recording leaves in its lane the normalized response, for the base lane always and for an edition
   that the case opted in to. Every other lane with a golden of its own keeps it, and no lane's request
   or masks change.
   */
  lemma RecordingStoresOneLane(c: Case, edition: Option<string>, keys: set<string>, server: string -> Response,
                               other: Option<string>)
    ensures var d, answer := Recorded(c, edition, keys, server), server(RequestOf(c, edition));
            && (!IsSkipped(c, edition) && (edition.Some? ==> edition.value in c.editions) ==>
                  GoldenOf(d, edition) == Response(answer.status, Normal(answer.body, keys, MaskOf(c, edition))))
            && (IsSkipped(c, edition) || (edition.Some? && edition.value !in c.editions) ==> d == c)
            && RequestOf(d, other) == RequestOf(c, other) && MaskOf(d, other) == MaskOf(c, other)
            && (other != edition
                  && (edition.Some? || (VariantOf(c, other).Some? && VariantOf(c, other).value.response.Some?))
                ==> GoldenOf(d, other) == GoldenOf(c, other))
  {
  }

  /** How many of the first `n` cases recording leaves alone and replaying fails. */
  ghost function CountUnrecordedFailures(cases: seq<Case>, edition: Option<string>, keys: set<string>,
                                         server: string -> Response, n: nat): nat
    requires n <= |cases|
  {
    if n == 0 then 0
    else
      var c := cases[n - 1];
      CountUnrecordedFailures(cases, edition, keys, server, n - 1)
      + if !Records(c, edition) && Replayed(c, edition, keys, server) == Failed then 1 else 0
  }

  /** The response that recording this case would store keeps a NaN after normalization. */
  ghost predicate KeepsNaN(c: Case, edition: Option<string>, keys: set<string>, server: string -> Response) {
    HasNaN(Normal(server(RequestOf(c, edition)).body, keys, MaskOf(c, edition)))
  }

  /**
   Recording a lane, whatever the edition, and replaying it at once fails only cases that recording
   left alone, provided no response to a recorded case keeps a NaN.
   */
  lemma {:induction false} RecordedLaneReplaysClean(cases: seq<Case>, written: seq<Case>, edition: Option<string>,
                                                    keys: set<string>,
                                                    server: string -> Response, n: nat)
    requires |written| == |cases| && n <= |cases| && RecordedUpTo(cases, written, edition, keys, server)
    requires forall i :: 0 <= i < |cases| && Records(cases[i], edition) ==> !KeepsNaN(cases[i], edition, keys, server)
    ensures CountOutcome(written, edition, keys, server, Failed, n) ==
              CountUnrecordedFailures(cases, edition, keys, server, n)
    ensures CountOutcome(written, edition, keys, server, Passed, n) >= CountRecords(cases, edition, n)
  {
    hide Recorded, Replayed, Records, KeepsNaN;
    if n > 0 {
      var c := cases[n - 1];
      RecordedLaneReplaysClean(cases, written, edition, keys, server, n - 1);
      assert written[n - 1] == Recorded(c, edition, keys, server);
      if Records(c, edition) {
        CleanCasePasses(c, edition, keys, server);
      } else {
        UnrecordedIsKept(c, edition, keys, server);
      }
    }
  }

  lemma CleanCasePasses(c: Case, edition: Option<string>, keys: set<string>, server: string -> Response)
    requires Records(c, edition) && !KeepsNaN(c, edition, keys, server)
    ensures Replayed(Recorded(c, edition, keys, server), edition, keys, server) == Passed
  {
    hide Recorded, Replayed, Records;
    RecordedGoldenReplays(c, edition, keys, server);
  }

  lemma UnrecordedIsKept(c: Case, edition: Option<string>, keys: set<string>, server: string -> Response)
    requires !Records(c, edition)
    ensures Recorded(c, edition, keys, server) == c
  {
  }

  /** A case whose response is a NaN: the golden just recorded from it fails. */
  lemma NaNGoldenFails(request: string) returns (c: Case, server: string -> Response)
    ensures Records(c, None) && Replayed(Recorded(c, None, {}, server), None, {}, server) == Failed
  {
    c := Case(request, [], Response(200, Null), map[]);
    server := _ => Response(200, Num(NaN));
    RecordedGoldenReplays(c, None, {}, server);
    assert MaskPointers(MaskKeys(Num(NaN), {}), []) == Num(NaN);
    SkippedUntouched(Recorded(c, None, {}, server), None, {}, server);
  }
}
