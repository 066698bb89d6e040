/**
 The precedence the topology view ranks its nodes by: how a nested join is expanded into the steps
 that finish it, and which edges advance a node's rank.
 */
module TopologyPrecedence {
  import opened Prelude
  import opened Graphs

  datatype Edge = Edge(source: string, target: string, kind: string, condition: Option<string>)

  predicate Known(ids: seq<string>, e: Edge) {
    e.source in ids && e.target in ids
  }

  /** Edges that point from one step to a later one: everything but `review` and `collect`. */
  predicate Forward(e: Edge) {
    e.kind != "review" && e.kind != "collect"
  }

  predicate Continues(e: Edge) {
    e.kind == "sequential" || e.kind == "conditional"
  }

  /** Adds one value to the list kept under a key. */
  function Push(m: map<string, seq<string>>, key: string, value: string): (r: map<string, seq<string>>)
    ensures forall k, v :: Has(r, k, v) <==> Has(m, k, v) || (k == key && v == value)
  {
    m[key := Listed(m, key) + [value]]
  }

  function Listed(m: map<string, seq<string>>, key: string): seq<string> {
    if key in m then m[key] else []
  }

  predicate Has(m: map<string, seq<string>>, key: string, value: string) {
    value in Listed(m, key)
  }

  /** The relation a map of lists stands for. */
  ghost function Relation(m: map<string, seq<string>>): set<(string, string)> {
    set k, v | k in m && v in m[k] :: (k, v)
  }

  ghost function Converse(m: map<string, seq<string>>): set<(string, string)> {
    set k, v | k in m && v in m[k] :: (v, k)
  }

  // ---------------------------------------------------------------- expanding nested joins

  /**
   `finishNodes`: the steps that finish `id`, with the set of nodes already seen, which is shared
   by all the recursive calls. A node met a second time stands for itself.
   */
  function Finish(joins: map<string, seq<string>>, id: string, seen: set<string>): (r: (seq<string>, set<string>))
    ensures seen + {id} <= r.1
    decreases joins.Keys - seen, 0
  {
    if id in seen then ([id], seen)
    else if Listed(joins, id) == [] then ([id], seen + {id})
    else FinishEach(joins, joins[id], seen + {id})
  }

  function FinishEach(joins: map<string, seq<string>>, ids: seq<string>,
                      seen: set<string>): (r: (seq<string>, set<string>))
    ensures seen <= r.1
    decreases joins.Keys - seen, |ids| + 1
  {
    if ids == [] then ([], seen)
    else
      var first := Finish(joins, ids[0], seen);
      var rest := FinishEach(joins, ids[1..], first.1);
      (first.0 + rest.0, rest.1)
  }

  /** A step that ends a block: nothing is collected into it. */
  ghost predicate EndsBlock(joins: map<string, seq<string>>, id: string) {
    Listed(joins, id) == []
  }

  /** One element of the loop taken off the front of `FinishEach`. */
  lemma FinishEachStep(joins: map<string, seq<string>>, sources: seq<string>, i: nat, seen: set<string>)
    requires i < |sources|
    ensures var (part, met) := Finish(joins, sources[i], seen);
            var (rest, all) := FinishEach(joins, sources[i + 1..], met);
            FinishEach(joins, sources[i..], seen) == (part + rest, all)
  {
    assert sources[i..][0] == sources[i] && sources[i..][1..] == sources[i + 1..];
  }

  /** The mutable set `seen` and the recursion over it, as the source runs them. */
  class FinishWalk {
    const joins: map<string, seq<string>>
    var seen: set<string>

    constructor (joins: map<string, seq<string>>)
      ensures this.joins == joins && seen == {}
    {
      this.joins := joins;
      seen := {};
    }

    method FinishNodes(id: string) returns (r: seq<string>)
      modifies this
      ensures (r, seen) == Finish(joins, id, old(seen))
      decreases joins.Keys - seen
    {
      if id in seen { return [id]; }
      seen := seen + {id};
      if id !in joins || joins[id] == [] { return [id]; }
      r := [];
      var sources := joins[id];
      ghost var whole := FinishEach(joins, sources, seen);
      assert sources[0..] == sources;
      for i := 0 to |sources|
        invariant old(seen) + {id} <= seen
        invariant whole.0 == r + FinishEach(joins, sources[i..], seen).0
        invariant whole.1 == FinishEach(joins, sources[i..], seen).1
      {
        FinishEachStep(joins, sources, i, seen);
        hide Finish, FinishEach;
        var part := FinishNodes(sources[i]);
        r := r + part;
      }
      assert sources[|sources|..] == [] && FinishEach(joins, [], seen) == ([], seen);
      assert whole.0 == r;
    }
  }

  /** Every listed step is inside the block, and the nodes newly seen are closed except at `before`. */
  ghost predicate FinishInvariant(joins: map<string, seq<string>>, before: set<string>, r: seq<string>,
                                  after: set<string>) {
    && before <= after
    && (forall n :: n in after - before && EndsBlock(joins, n) ==> n in r)
    && (forall n, m :: n in after - before && m in Listed(joins, n) ==> m in after)
  }

  lemma {:induction false} FinishCovers(joins: map<string, seq<string>>, id: string, seen: set<string>)
    ensures var r := Finish(joins, id, seen); FinishInvariant(joins, seen, r.0, r.1)
    decreases joins.Keys - seen, 0
  {
    if id !in seen && Listed(joins, id) != [] {
      FinishEachCovers(joins, joins[id], seen + {id});
    }
  }

  lemma {:induction false} FinishEachCovers(joins: map<string, seq<string>>, ids: seq<string>, seen: set<string>)
    ensures var r := FinishEach(joins, ids, seen); FinishInvariant(joins, seen, r.0, r.1)
    ensures forall n :: n in ids ==> n in FinishEach(joins, ids, seen).1
    decreases joins.Keys - seen, |ids| + 1
  {
    if ids != [] {
      var first := Finish(joins, ids[0], seen);
      FinishCovers(joins, ids[0], seen);
      FinishEachCovers(joins, ids[1..], first.1);
    }
  }

  lemma {:induction false} FinishStaysInside(joins: map<string, seq<string>>, id: string, seen: set<string>, f: string)
    requires f in Finish(joins, id, seen).0
    ensures Reaches(Relation(joins), id, f)
    decreases joins.Keys - seen, 0
  {
    ReachesSelf(Relation(joins), id);
    if id !in seen && Listed(joins, id) != [] {
      var s := FinishEachStaysInside(joins, joins[id], seen + {id}, f);
      EdgeWalk(Relation(joins), id, s);
      ReachesTrans(Relation(joins), id, s, f);
    }
  }

  lemma {:induction false} FinishEachStaysInside(joins: map<string, seq<string>>, ids: seq<string>, seen: set<string>,
                                                 f: string)
    returns (s: string)
    requires f in FinishEach(joins, ids, seen).0
    ensures s in ids && Reaches(Relation(joins), s, f)
    decreases joins.Keys - seen, |ids| + 1
  {
    var first := Finish(joins, ids[0], seen);
    if f in first.0 {
      FinishStaysInside(joins, ids[0], seen, f);
      s := ids[0];
    } else {
      s := FinishEachStaysInside(joins, ids[1..], first.1, f);
    }
  }

  /**
   Expanding a join, however deeply nested or malformed, names only steps collected into it and
   misses none of the steps that end it.
   */
  lemma FinishExpandsJoin(joins: map<string, seq<string>>, id: string)
    ensures forall f :: f in Finish(joins, id, {}).0 ==> Reaches(Relation(joins), id, f)
    ensures forall f :: Reaches(Relation(joins), id, f) && EndsBlock(joins, f) ==> f in Finish(joins, id, {}).0
  {
    var r := Finish(joins, id, {});
    forall f | f in r.0 ensures Reaches(Relation(joins), id, f) {
      FinishStaysInside(joins, id, {}, f);
    }
    FinishCovers(joins, id, {});
    forall x, y | x in r.1 && (x, y) in Relation(joins) ensures y in r.1 {
      assert y in Listed(joins, x);
    }
    forall f | Reaches(Relation(joins), id, f) && EndsBlock(joins, f) ensures f in r.0 {
      ClosedContainsReachable(Relation(joins), r.1, id, f);
    }
  }

  // ---------------------------------------------------------------- what expansion conserves

  /** All the entries under the nodes of `s`, with multiplicity. */
  ghost function Entries(joins: map<string, seq<string>>, s: set<string>): multiset<string> {
    if s == {} then multiset{} else
      var x :| x in s;
      multiset(Listed(joins, x)) + Entries(joins, s - {x})
  }

  lemma {:induction false} EntriesAdd(joins: map<string, seq<string>>, s: set<string>, x: string)
    requires x !in s
    ensures Entries(joins, s + {x}) == Entries(joins, s) + multiset(Listed(joins, x))
    decreases |s|
  {
    hide *;
    var whole := s + {x};
    var y := EntriesPick(joins, whole);
    if y == x {
      assert whole - {x} == s;
    } else {
      var s' := s - {y};
      Exchange(s, x, y);
      EntriesAdd(joins, s', x);
      EntriesAdd(joins, s', y);
      Regroup(Entries(joins, whole), Entries(joins, s' + {x}), Entries(joins, s), Entries(joins, s'),
              multiset(Listed(joins, x)), multiset(Listed(joins, y)));
    }
  }

  lemma Exchange<T>(s: set<T>, x: T, y: T)
    requires x !in s && y in s
    ensures s + {x} - {y} == s - {y} + {x} && s - {y} + {y} == s
    ensures x !in s - {y} && y !in s - {y} && |s - {y}| < |s|
  {
  }

  lemma Regroup<T>(all: multiset<T>, rest: multiset<T>, most: multiset<T>, few: multiset<T>, a: multiset<T>,
                   b: multiset<T>)
    requires all == b + rest && rest == few + a && most == few + b
    ensures all == most + a
  {
  }

  lemma {:induction false} EntriesPick(joins: map<string, seq<string>>, s: set<string>) returns (y: string)
    requires s != {}
    ensures y in s && Entries(joins, s) == multiset(Listed(joins, y)) + Entries(joins, s - {y})
  {
    y :| y in s && Entries(joins, s) == multiset(Listed(joins, y)) + Entries(joins, s - {y});
  }

  lemma TakeOut<T>(s: set<T>, t: set<T>, x: T)
    requires x in t && s !! t
    ensures t - {x} + {x} == t && s + (t - {x}) + {x} == s + t && s !! t - {x} && x !in s + (t - {x})
  {
  }

  lemma {:induction false} EntriesUnion(joins: map<string, seq<string>>, s: set<string>, t: set<string>)
    requires s !! t
    ensures Entries(joins, s + t) == Entries(joins, s) + Entries(joins, t)
    decreases t
  {
    if t == {} {
      assert s + t == s;
    } else {
      hide Entries, Listed;
      var x :| x in t;
      var t' := t - {x};
      TakeOut(s, t, x);
      EntriesUnion(joins, s, t');
      EntriesAdd(joins, t', x);
      EntriesAdd(joins, s + t', x);
    }
  }

  /** The joins among a set of nodes. */
  ghost function Inner(joins: map<string, seq<string>>, s: set<string>): set<string> {
    set x | x in s && !EndsBlock(joins, x)
  }

  lemma InnerUnion(joins: map<string, seq<string>>, s: set<string>, t: set<string>)
    requires s !! t
    ensures multiset(Inner(joins, s + t)) == multiset(Inner(joins, s)) + multiset(Inner(joins, t))
  {
    assert Inner(joins, s + t) == Inner(joins, s) + Inner(joins, t);
    assert Inner(joins, s) !! Inner(joins, t);
  }

  /** Each newly seen join is replaced by its entries exactly once; everything met stays accounted for. */
  ghost predicate Conserves(joins: map<string, seq<string>>, ids: seq<string>, added: set<string>, r: seq<string>) {
    multiset(r) + multiset(Inner(joins, added)) == multiset(ids) + Entries(joins, added)
  }

  lemma ConservesSelf(joins: map<string, seq<string>>, id: string)
    ensures Conserves(joins, [id], {}, [id])
    ensures EndsBlock(joins, id) ==> Conserves(joins, [id], {id}, [id])
  {
    EntriesAdd(joins, {}, id);
    assert {} + {id} == {id};
    assert EndsBlock(joins, id) ==> Inner(joins, {id}) == {};
  }

  lemma ConservesJoin(joins: map<string, seq<string>>, id: string, d: set<string>, r: seq<string>)
    requires id !in d && !EndsBlock(joins, id) && Conserves(joins, Listed(joins, id), d, r)
    ensures Conserves(joins, [id], d + {id}, r)
  {
    EntriesAdd(joins, d, id);
    InnerUnion(joins, d, {id});
    assert Inner(joins, {id}) == {id};
    var a, b := multiset(r), multiset(Inner(joins, d));
    assert multiset(Inner(joins, d + {id})) == b + multiset{id};
    assert a + (b + multiset{id}) == (a + b) + multiset{id};
    assert multiset([id]) == multiset{id};
  }

  lemma ConservesConcat(joins: map<string, seq<string>>, ids: seq<string>, d: set<string>, d': set<string>,
                        r: seq<string>, r': seq<string>)
    requires ids != [] && d !! d'
    requires Conserves(joins, [ids[0]], d, r) && Conserves(joins, ids[1..], d', r')
    ensures Conserves(joins, ids, d + d', r + r')
  {
    EntriesUnion(joins, d, d');
    InnerUnion(joins, d, d');
    assert ids == [ids[0]] + ids[1..];
    assert multiset(r + r') == multiset(r) + multiset(r');
    var a, b, c := multiset(r), multiset(r'), multiset(Inner(joins, d + d'));
    assert a + b + c == (a + multiset(Inner(joins, d))) + (b + multiset(Inner(joins, d')));
  }

  lemma {:induction false} FinishConserves(joins: map<string, seq<string>>, id: string, seen: set<string>)
    ensures var r := Finish(joins, id, seen); Conserves(joins, [id], r.1 - seen, r.0)
    decreases joins.Keys - seen, 0
  {
    hide Conserves;
    var r := Finish(joins, id, seen);
    if id in seen {
      assert r.1 - seen == {};
      ConservesSelf(joins, id);
    } else if Listed(joins, id) == [] {
      assert r.1 - seen == {id};
      ConservesSelf(joins, id);
    } else {
      FinishEachConserves(joins, joins[id], seen + {id});
      var d := r.1 - (seen + {id});
      assert r.1 - seen == d + {id};
      ConservesJoin(joins, id, d, r.0);
    }
  }

  lemma {:induction false} FinishEachConserves(joins: map<string, seq<string>>, ids: seq<string>, seen: set<string>)
    ensures var r := FinishEach(joins, ids, seen); Conserves(joins, ids, r.1 - seen, r.0)
    decreases joins.Keys - seen, |ids| + 1
  {
    var r := FinishEach(joins, ids, seen);
    if ids == [] {
      assert r.1 - seen == {};
    } else {
      hide Conserves;
      var first := Finish(joins, ids[0], seen);
      var rest := FinishEach(joins, ids[1..], first.1);
      FinishConserves(joins, ids[0], seen);
      FinishEachConserves(joins, ids[1..], first.1);
      ConservesConcat(joins, ids, first.1 - seen, rest.1 - first.1, first.0, rest.0);
      assert r.1 - seen == (first.1 - seen) + (rest.1 - first.1);
    }
  }

  /**
   Exactly what `finishNodes` returns, as a multiset, on any graph: of the node itself and all the
   entries of the joins inside it, one occurrence of each of those joins is used up by expanding it.
   So a join is left in the result once for every time it is met again, and nowhere else.
   */
  lemma {:induction false} FinishExactly(joins: map<string, seq<string>>, id: string) returns (inside: set<string>)
    ensures forall n :: n in inside <==> Reaches(Relation(joins), id, n)
    ensures multiset(Finish(joins, id, {}).0) + multiset(Inner(joins, inside)) == multiset{id} + Entries(joins, inside)
  {
    var r := Finish(joins, id, {});
    inside := r.1;
    FinishCovers(joins, id, {});
    FinishConserves(joins, id, {});
    assert r.1 - {} == inside;
    forall x, y | x in inside && (x, y) in Relation(joins) ensures y in inside {
      assert y in Listed(joins, x);
    }
    forall n | Reaches(Relation(joins), id, n) ensures n in inside {
      ClosedContainsReachable(Relation(joins), inside, id, n);
    }
    forall n | n in inside ensures Reaches(Relation(joins), id, n) {
      SeenStaysInside(joins, id, {}, n);
    }
  }

  lemma {:induction false} SeenStaysInside(joins: map<string, seq<string>>, id: string, seen: set<string>, n: string)
    requires n in Finish(joins, id, seen).1 - seen
    ensures Reaches(Relation(joins), id, n)
    decreases joins.Keys - seen, 0
  {
    ReachesSelf(Relation(joins), id);
    if n != id {
      var s := SeenEachStaysInside(joins, joins[id], seen + {id}, n);
      EdgeWalk(Relation(joins), id, s);
      ReachesTrans(Relation(joins), id, s, n);
    }
  }

  lemma {:induction false} SeenEachStaysInside(joins: map<string, seq<string>>, ids: seq<string>, seen: set<string>,
                                               n: string)
    returns (s: string)
    requires n in FinishEach(joins, ids, seen).1 - seen
    ensures s in ids && Reaches(Relation(joins), s, n)
    decreases joins.Keys - seen, |ids| + 1
  {
    var first := Finish(joins, ids[0], seen);
    if n in first.1 {
      SeenStaysInside(joins, ids[0], seen, n);
      s := ids[0];
    } else {
      s := SeenEachStaysInside(joins, ids[1..], first.1, n);
    }
  }

  /**
   The expansion names only steps that end the block exactly when every join inside is met once;
   otherwise it names a join that is met again as well.
   */
  lemma FinishNamesOnlyEnds(joins: map<string, seq<string>>, id: string, inside: set<string>)
    requires forall n :: n in inside <==> Reaches(Relation(joins), id, n)
    ensures (forall f :: f in Finish(joins, id, {}).0 ==> EndsBlock(joins, f)) <==>
            (forall n :: n in Inner(joins, inside) ==> (multiset{id} + Entries(joins, inside))[n] == 1)
  {
    var inside' := FinishExactly(joins, id);
    assert inside' == inside;
    var r, total := Finish(joins, id, {}).0, multiset{id} + Entries(joins, inside);
    forall n | n in Inner(joins, inside) ensures total[n] == multiset(r)[n] + 1 {
      assert (multiset(r) + multiset(Inner(joins, inside)))[n] == total[n];
    }
    forall f | f in r ensures f in inside {
      FinishStaysInside(joins, id, {}, f);
    }
    assert forall n :: n in r <==> multiset(r)[n] > 0;
  }

  // ---------------------------------------------------------------- rank-advancing edges

  ghost predicate Collected(edges: seq<Edge>, join: string, step: string) {
    exists e :: e in edges && e.kind == "collect" && e.target == join && e.source == step
  }

  ghost predicate Continued(edges: seq<Edge>, from: string, to: string) {
    exists e :: e in edges && Continues(e) && e.source == from && e.target == to
  }

  /** Under each join, the sources of its `collect` edges in order of appearance. */
  function Joins(edges: seq<Edge>): (r: map<string, seq<string>>)
    ensures forall j, s :: Has(r, j, s) <==> Collected(edges, j, s)
  {
    if edges == [] then map[]
    else
      var front, e := edges[..|edges| - 1], edges[|edges| - 1];
      assert edges == front + [e];
      assert forall x :: x in edges <==> x in front || x == e;
      if e.kind == "collect" then Push(Joins(front), e.target, e.source) else Joins(front)
  }

  /** Under each step, what runs after it. */
  function Continuations(edges: seq<Edge>): (r: map<string, seq<string>>)
    ensures forall a, b :: Has(r, a, b) <==> Continued(edges, a, b)
  {
    if edges == [] then map[]
    else
      var front, e := edges[..|edges| - 1], edges[|edges| - 1];
      assert edges == front + [e];
      assert forall x :: x in edges <==> x in front || x == e;
      if Continues(e) then Push(Continuations(front), e.source, e.target) else Continuations(front)
  }

  /**
   The derived precedence, edge by edge: a forward edge advances the rank of its target, and a
   `collect` edge advances, past every step finishing its source, whatever continues after its join.
   */
  ghost predicate AdvancedBy(edges: seq<Edge>, e: Edge, from: string, to: string) {
    || (Forward(e) && e.source == from && e.target == to)
    || (e.kind == "collect" && Continued(edges, e.target, to) && from in Finish(Joins(edges), e.source, {}).0)
  }

  ghost predicate Advances(edges: seq<Edge>, from: string, to: string) {
    AdvancesUpTo(edges, |edges|, from, to)
  }

  /** The part of the precedence that the first `n` edges contribute. */
  ghost predicate AdvancesUpTo(edges: seq<Edge>, n: nat, from: string, to: string)
    requires n <= |edges|
  {
    exists i :: 0 <= i < n && AdvancedBy(edges, edges[i], from, to)
  }

  method BuildContinuations(edges: seq<Edge>) returns (continuations: map<string, seq<string>>)
    ensures continuations == Continuations(edges)
  {
    continuations := map[];
    for i := 0 to |edges|
      invariant continuations == Continuations(edges[..i])
    {
      assert edges[..i + 1][..i] == edges[..i];
      var e := edges[i];
      if Continues(e) { continuations := Push(continuations, e.source, e.target); }
    }
    assert edges[..|edges|] == edges;
  }

  method BuildJoins(edges: seq<Edge>) returns (joins: map<string, seq<string>>)
    ensures joins == Joins(edges)
  {
    joins := map[];
    for i := 0 to |edges|
      invariant joins == Joins(edges[..i])
    {
      assert edges[..i + 1][..i] == edges[..i];
      var e := edges[i];
      if e.kind == "collect" { joins := Push(joins, e.target, e.source); }
    }
    assert edges[..|edges|] == edges;
  }

  function PushAll(m: map<string, seq<string>>, key: string, values: seq<string>): (r: map<string, seq<string>>)
    ensures forall k, v :: Has(r, k, v) <==> Has(m, k, v) || (k == key && v in values)
  {
    if values == [] then m
    else
      var front, last := values[..|values| - 1], values[|values| - 1];
      assert values == front + [last];
      Push(PushAll(m, key, front), key, last)
  }

  /** `finishes` added, in order, to the list of every continuation in turn. */
  function PushEach(m: map<string, seq<string>>, conts: seq<string>, finishes: seq<string>): (r: map<string,
        seq<string>>)
    ensures forall k, v :: Has(r, k, v) <==> Has(m, k, v) || (k in conts && v in finishes)
  {
    if conts == [] then m
    else
      var front, last := conts[..|conts| - 1], conts[|conts| - 1];
      assert conts == front + [last];
      PushAll(PushEach(m, front, finishes), last, finishes)
  }

  /** What one edge adds to the predecessor lists. */
  function PushEdge(m: map<string, seq<string>>, edges: seq<Edge>, e: Edge): (r: map<string, seq<string>>)
    ensures forall a, b :: Has(r, b, a) <==> Has(m, b, a) || AdvancedBy(edges, e, a, b)
  {
    if e.kind == "review" then m
    else if e.kind == "collect" then
      var conts := Listed(Continuations(edges), e.target);
      assert forall b :: b in conts <==> Continued(edges, e.target, b);
      PushEach(m, conts, Finish(Joins(edges), e.source, {}).0)
    else Push(m, e.target, e.source)
  }

  /** The predecessor lists after the first `n` edges, each entry at the place the source puts it. */
  function PredecessorsUpTo(edges: seq<Edge>, n: nat): (r: map<string, seq<string>>)
    requires n <= |edges|
    ensures forall a, b :: Has(r, b, a) <==> AdvancesUpTo(edges, n, a, b)
  {
    if n == 0 then map[] else PushEdge(PredecessorsUpTo(edges, n - 1), edges, edges[n - 1])
  }

  function Predecessors(edges: seq<Edge>): (r: map<string, seq<string>>)
    ensures forall a, b :: Has(r, b, a) <==> Advances(edges, a, b)
  {
    PredecessorsUpTo(edges, |edges|)
  }

  method AddFinishes(preds: map<string, seq<string>>, finishes: seq<string>, cont: string)
    returns (r: map<string, seq<string>>)
    ensures r == PushAll(preds, cont, finishes)
  {
    r := preds;
    for m := 0 to |finishes|
      invariant r == PushAll(preds, cont, finishes[..m])
    {
      TakeOneMore(finishes, m);
      r := Push(r, cont, finishes[m]);
    }
    TakeAll(finishes);
  }

  /** One `collect` edge: every step finishing its source precedes every continuation. */
  method AddCollect(preds: map<string, seq<string>>, joins: map<string, seq<string>>, source: string,
                    conts: seq<string>)
    returns (r: map<string, seq<string>>)
    ensures r == PushEach(preds, conts, Finish(joins, source, {}).0)
  {
    r := preds;
    hide PushAll, Finish, Has;
    for k := 0 to |conts|
      invariant r == PushEach(preds, conts[..k], Finish(joins, source, {}).0)
    {
      var walk := new FinishWalk(joins);
      var finishes := walk.FinishNodes(source);
      r := AddFinishes(r, finishes, conts[k]);
      TakeOneMore(conts, k);
    }
    TakeAll(conts);
  }

  /** The lists hold exactly the derived precedence. */
  method BuildPredecessors(edges: seq<Edge>) returns (preds: map<string, seq<string>>)
    ensures preds == Predecessors(edges)
    ensures forall a, b :: Has(preds, b, a) <==> Advances(edges, a, b)
  {
    var continuations := BuildContinuations(edges);
    var joins := BuildJoins(edges);
    preds := map[];
    hide AdvancesUpTo, Advances, AdvancedBy, Finish, Joins, Continuations;
    for i := 0 to |edges|
      invariant preds == PredecessorsUpTo(edges, i)
    {
      var e := edges[i];
      if e.kind == "review" {
      } else if e.kind == "collect" {
        preds := AddCollect(preds, joins, e.source, Listed(continuations, e.target));
      } else {
        preds := Push(preds, e.target, e.source);
      }
    }
  }

  /** Every step that finishes a block, at any nesting depth, precedes what continues after the block. */
  lemma BlockPrecedesContinuation(edges: seq<Edge>, e: Edge, step: string, next: string)
    requires e in edges && e.kind == "collect" && Continued(edges, e.target, next)
    requires Reaches(Relation(Joins(edges)), e.source, step) && EndsBlock(Joins(edges), step)
    ensures Advances(edges, step, next)
  {
    FinishExpandsJoin(Joins(edges), e.source);
  }
}
