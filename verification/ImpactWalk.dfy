/**
 The project graph's breadth-first walk: in impact mode along the permitted direction of each
 relation without a bound, in context mode along every edge up to a depth and never from a component
 down into its files.
 */
module ImpactWalk {
  import opened Prelude
  import opened Graphs
  import opened StableSorting
  import opened Text

  datatype Edge = Edge(source: string, relation: string, target: string)

  predicate FollowsForward(relation: string) {
    relation in {"part_of", "defines", "implements", "requires", "verifies"}
  }

  predicate FollowsBackward(relation: string) {
    relation in {"depends_on", "consumes", "provides", "uses", "verifies"}
  }

  /** The edge can be taken from one node to the other in this mode. */
  predicate Connects(impact: bool, e: Edge, from: string, to: string) {
    || (e.source == from && e.target == to && (!impact || FollowsForward(e.relation)))
    || (e.target == from && e.source == to && (!impact || FollowsBackward(e.relation)))
  }

  predicate IsFile(id: string) {
    "file:" <= id
  }

  /** Context stops short of listing the files of a component. */
  predicate Enters(impact: bool, e: Edge, to: string) {
    impact || e.relation != "part_of" || !IsFile(to)
  }

  predicate Step(impact: bool, e: Edge, from: string, to: string) {
    Connects(impact, e, from, to) && Enters(impact, e, to)
  }

  /** The steps a mode permits, as a graph. */
  ghost function StepGraph(edges: seq<Edge>, impact: bool): set<(string, string)> {
    (set e | e in edges && Step(impact, e, e.source, e.target) :: (e.source, e.target))
    + (set e | e in edges && Step(impact, e, e.target, e.source) :: (e.target, e.source))
  }

  lemma StepGraphHas(edges: seq<Edge>, impact: bool, a: string, b: string)
    ensures (a, b) in StepGraph(edges, impact) <==> exists e :: e in edges && Step(impact, e, a, b)
  {
    if (a, b) in StepGraph(edges, impact) {
      if (a, b) in (set e | e in edges && Step(impact, e, e.source, e.target) :: (e.source, e.target)) {
        var e :| e in edges && Step(impact, e, e.source, e.target) && (e.source, e.target) == (a, b);
        assert Step(impact, e, a, b);
      } else {
        var e :| e in edges && Step(impact, e, e.target, e.source) && (e.target, e.source) == (a, b);
        assert Step(impact, e, a, b);
      }
    }
    if e :| e in edges && Step(impact, e, a, b) {
      assert (e.source == a && e.target == b) || (e.target == a && e.source == b);
    }
  }

  /** The edges, in order, lead from `from` to `to`. */
  ghost predicate Chain(edges: seq<Edge>, impact: bool, from: string, path: seq<Edge>, to: string)
    decreases |path|
  {
    if path == [] then from == to
    else
      var n := |path| - 1;
      path[n] in edges && exists mid :: Chain(edges, impact, from, path[..n], mid) && Step(impact, path[n], mid, to)
  }

  lemma {:induction false} ChainIsWalk(edges: seq<Edge>, impact: bool, from: string, path: seq<Edge>, to: string)
    requires Chain(edges, impact, from, path, to)
    ensures Walk(StepGraph(edges, impact), from, to, |path|)
    decreases |path|
  {
    if path != [] {
      var n := |path| - 1;
      var mid :| Chain(edges, impact, from, path[..n], mid) && Step(impact, path[n], mid, to);
      ChainIsWalk(edges, impact, from, path[..n], mid);
      StepGraphHas(edges, impact, mid, to);
    }
  }

  lemma ChainExtend(edges: seq<Edge>, impact: bool, from: string, path: seq<Edge>, mid: string, e: Edge, to: string)
    requires Chain(edges, impact, from, path, mid) && e in edges && Step(impact, e, mid, to)
    ensures Chain(edges, impact, from, path + [e], to)
  {
    assert (path + [e])[..|path|] == path;
  }

  // ---------------------------------------------------------------- adjacency

  type Adjacency = map<string, seq<(string, Edge)>>

  function Neighbours(adj: Adjacency, id: string): seq<(string, Edge)> {
    if id in adj then adj[id] else []
  }

  predicate Adjacent(adj: Adjacency, from: string, to: string, e: Edge) {
    (to, e) in Neighbours(adj, from)
  }

  function Link(adj: Adjacency, from: string, to: string, e: Edge): (r: Adjacency)
    ensures forall a, b, f :: Adjacent(r, a, b, f) <==> Adjacent(adj, a, b, f) || (a == from && b == to && f == e)
  {
    adj[from := Neighbours(adj, from) + [(to, e)]]
  }

  /** The lists hold exactly the steps a mode permits, edge by edge. */
  ghost predicate IsAdjacency(edges: seq<Edge>, impact: bool, adj: Adjacency) {
    forall a, b, e :: Adjacent(adj, a, b, e) <==> e in edges && Connects(impact, e, a, b)
  }

  method BuildAdjacency(edges: seq<Edge>, impact: bool) returns (adj: Adjacency)
    ensures IsAdjacency(edges, impact, adj)
  {
    adj := map[];
    for i := 0 to |edges|
      invariant forall a, b, e :: Adjacent(adj, a, b, e) <==> e in edges[..i] && Connects(impact, e, a, b)
    {
      var e := edges[i];
      assert edges[..i + 1] == edges[..i] + [e];
      if !impact || FollowsForward(e.relation) { adj := Link(adj, e.source, e.target, e); }
      if !impact || FollowsBackward(e.relation) { adj := Link(adj, e.target, e.source, e); }
    }
    assert edges[..|edges|] == edges;
  }

  // ---------------------------------------------------------------- the walk

  type Paths = map<string, seq<Edge>>

  function CompareText(): (string, string) -> int {
    (a, b) => if !LessEq(a, b) then 1 else if LessEq(b, a) then 0 else -1
  }

  /** Whether nodes at this depth are expanded. */
  predicate Expands(impact: bool, maxDepth: int, depth: int) {
    impact || depth < maxDepth
  }

  /** Every node found has a chain from a seed, and no chain is longer than the bound allows. */
  ghost predicate Found(edges: seq<Edge>, impact: bool, maxDepth: int, seeds: seq<string>, paths: Paths) {
    && (forall v :: v in seeds <==> v in paths && paths[v] == [])
    && (forall v :: v in paths && paths[v] != [] ==>
          FromSeed(edges, impact, seeds, paths[v], v) && Expands(impact, maxDepth, |paths[v]| - 1))
  }

  ghost predicate FromSeed(edges: seq<Edge>, impact: bool, seeds: seq<string>, path: seq<Edge>, v: string) {
    exists s :: s in seeds && Chain(edges, impact, s, path, v)
  }

  lemma FoundFromSeed(edges: seq<Edge>, impact: bool, maxDepth: int, seeds: seq<string>, paths: Paths, v: string)
    requires Found(edges, impact, maxDepth, seeds, paths) && v in paths
    ensures FromSeed(edges, impact, seeds, paths[v], v)
  {
    if paths[v] == [] { assert Chain(edges, impact, v, [], v); }
  }

  /** Everything one step after `v` has been found, no more than one edge further. */
  ghost predicate Expanded(edges: seq<Edge>, impact: bool, paths: Paths, v: string)
    requires v in paths
  {
    forall w :: (v, w) in StepGraph(edges, impact) ==> w in paths && |paths[w]| <= |paths[v]| + 1
  }

  /** The queue holds found nodes at their depth, in order of depth, spanning at most two depths. */
  ghost predicate Queued(paths: Paths, queue: seq<(string, int)>) {
    && (forall i :: 0 <= i < |queue| ==> queue[i].0 in paths && queue[i].1 == |paths[queue[i].0]|)
    && (forall i, j :: 0 <= i < j < |queue| ==> queue[i].1 <= queue[j].1)
    && (forall v :: v in paths && queue != [] ==> |paths[v]| <= queue[0].1 + 1)
  }

  ghost predicate Waiting(queue: seq<(string, int)>, v: string) {
    exists i :: 0 <= i < |queue| && queue[i].0 == v
  }

  ghost predicate Handled(edges: seq<Edge>, impact: bool, maxDepth: int, paths: Paths, v: string)
    requires v in paths
  {
    !Expands(impact, maxDepth, |paths[v]|) || Expanded(edges, impact, paths, v)
  }

  ghost predicate Progress(edges: seq<Edge>, impact: bool, maxDepth: int, seeds: seq<string>, paths: Paths,
                           queue: seq<(string, int)>) {
    && Found(edges, impact, maxDepth, seeds, paths)
    && Queued(paths, queue)
    && Covered(edges, impact, maxDepth, paths, queue, {})
  }

  /** Everything found, the nodes in `except` apart, is queued or handled. */
  ghost predicate Covered(edges: seq<Edge>, impact: bool, maxDepth: int, paths: Paths, queue: seq<(string, int)>,
                          except: set<string>) {
    forall v :: v in paths && v !in except ==> Waiting(queue, v) || Handled(edges, impact, maxDepth, paths, v)
  }

  /** What the walk returns: exactly the nodes within reach, each with a shortest chain. */
  ghost predicate WalkResult(edges: seq<Edge>, impact: bool, maxDepth: int, seeds: seq<string>, paths: Paths) {
    var g := StepGraph(edges, impact);
    && (forall v :: v in paths ==> FromSeed(edges, impact, seeds, paths[v], v))
    && (forall s, v, n: nat :: s in seeds && Walk(g, s, v, n) && (n == 0 || Expands(impact, maxDepth, n - 1)) ==>
          v in paths && |paths[v]| <= n)
    && (forall v :: v in paths && paths[v] != [] ==> Expands(impact, maxDepth, |paths[v]| - 1))
  }

  /** When everything found has been handled, whatever a walk reaches within the bound has been found. */
  lemma {:induction false} HandledReaches(edges: seq<Edge>, impact: bool, maxDepth: int, paths: Paths, s: string,
                                          v: string, n: nat)
    requires s in paths && paths[s] == [] && forall u :: u in paths ==> Handled(edges, impact, maxDepth, paths, u)
    requires Walk(StepGraph(edges, impact), s, v, n) && (n == 0 || Expands(impact, maxDepth, n - 1))
    ensures v in paths && |paths[v]| <= n
    decreases n
  {
    hide StepGraph;
    if n > 0 {
      var u :| Walk(StepGraph(edges, impact), s, u, n - 1) && (u, v) in StepGraph(edges, impact);
      HandledReaches(edges, impact, maxDepth, paths, s, u, n - 1);
      assert Handled(edges, impact, maxDepth, paths, u);
    }
  }

  lemma {:induction false} FinishedIsResult(edges: seq<Edge>, impact: bool, maxDepth: int, seeds: seq<string>,
                                            paths: Paths)
    requires Progress(edges, impact, maxDepth, seeds, paths, [])
    ensures WalkResult(edges, impact, maxDepth, seeds, paths)
  {
    forall u | u in paths ensures Handled(edges, impact, maxDepth, paths, u) {
      assert !Waiting([], u);
    }
    forall v | v in paths ensures FromSeed(edges, impact, seeds, paths[v], v) {
      FoundFromSeed(edges, impact, maxDepth, seeds, paths, v);
    }
    hide Covered, Handled, Chain, FromSeed;
    forall s, v, n: nat | s in seeds && Walk(StepGraph(edges, impact), s, v, n)
           && (n == 0 || Expands(impact, maxDepth, n - 1))
      ensures v in paths && |paths[v]| <= n
    {
      HandledReaches(edges, impact, maxDepth, paths, s, v, n);
    }
  }

  // ---------------------------------------------------------------- one turn of the loop

  /** `cur` has left the queue; the neighbours in `done` have been looked at. */
  ghost predicate Turn(edges: seq<Edge>, impact: bool, maxDepth: int, seeds: seq<string>, paths: Paths,
                       queue: seq<(string, int)>,
                       cur: string, depth: int, done: seq<(string, Edge)>) {
    && Found(edges, impact, maxDepth, seeds, paths)
    && cur in paths && |paths[cur]| == depth && Expands(impact, maxDepth, depth)
    && TurnQueue(paths, queue, depth)
    && Covered(edges, impact, maxDepth, paths, queue, {cur})
    && Seen(impact, paths, done)
  }

  ghost predicate Seen(impact: bool, paths: Paths, done: seq<(string, Edge)>) {
    forall p :: p in done && Enters(impact, p.1, p.0) ==> p.0 in paths
  }

  /** Between `depth` and the next one, in order, and nothing found further away than that. */
  ghost predicate TurnQueue(paths: Paths, queue: seq<(string, int)>, depth: int) {
    && (forall i :: 0 <= i < |queue| ==>
          queue[i].0 in paths && queue[i].1 == |paths[queue[i].0]| && queue[i].1 >= depth)
    && (forall i, j :: 0 <= i < j < |queue| ==> queue[i].1 <= queue[j].1)
    && (forall v :: v in paths ==> |paths[v]| <= depth + 1)
  }

  lemma QueueTail(paths: Paths, queue: seq<(string, int)>)
    requires Queued(paths, queue) && queue != []
    ensures TurnQueue(paths, queue[1..], queue[0].1) && queue[0].0 in paths && queue[0].1 == |paths[queue[0].0]|
  {
  }

  lemma QueueBack(paths: Paths, queue: seq<(string, int)>, depth: int)
    requires TurnQueue(paths, queue, depth)
    ensures Queued(paths, queue)
  {
  }

  lemma QueueDiscovers(paths: Paths, queue: seq<(string, int)>, depth: int, to: string, path: seq<Edge>)
    requires TurnQueue(paths, queue, depth) && to !in paths && |path| == depth + 1
    ensures TurnQueue(paths[to := path], queue + [(to, depth + 1)], depth)
  {
    var after, longer := paths[to := path], queue + [(to, depth + 1)];
    forall i | 0 <= i < |queue| ensures longer[i] == queue[i] && longer[i].1 <= depth + 1 {
      assert queue[i].0 in paths;
    }
  }

  lemma CoveredTail(edges: seq<Edge>, impact: bool, maxDepth: int, paths: Paths, queue: seq<(string, int)>)
    requires Covered(edges, impact, maxDepth, paths, queue, {}) && queue != []
    ensures Covered(edges, impact, maxDepth, paths, queue[1..], {queue[0].0})
  {
    hide Handled;
    forall v | v in paths && v != queue[0].0
      ensures Waiting(queue[1..], v) || Handled(edges, impact, maxDepth, paths, v)
    {
      if Waiting(queue, v) {
        var i :| 0 <= i < |queue| && queue[i].0 == v;
        assert queue[1..][i - 1].0 == v;
      }
    }
  }

  lemma CoveredBack(edges: seq<Edge>, impact: bool, maxDepth: int, paths: Paths, queue: seq<(string, int)>, cur: string)
    requires Covered(edges, impact, maxDepth, paths, queue, {cur}) && cur in paths
             && Handled(edges, impact, maxDepth, paths, cur)
    ensures Covered(edges, impact, maxDepth, paths, queue, {})
  {
    hide Handled, Waiting;
  }

  lemma CoveredDiscovers(edges: seq<Edge>, impact: bool, maxDepth: int, paths: Paths, queue: seq<(string, int)>,
                         cur: string,
                         to: string, path: seq<Edge>, depth: int)
    requires Covered(edges, impact, maxDepth, paths, queue, {cur}) && to !in paths
    ensures Covered(edges, impact, maxDepth, paths[to := path], queue + [(to, depth)], {cur})
  {
    var after, longer := paths[to := path], queue + [(to, depth)];
    forall v | v in after && v != cur ensures Waiting(longer, v) || Handled(edges, impact, maxDepth, after, v) {
      if v == to || Waiting(queue, v) {
        WaitingSnoc(queue, v, (to, depth));
      } else {
      }
    }
  }

  lemma WaitingSnoc(queue: seq<(string, int)>, v: string, p: (string, int))
    requires Waiting(queue, v) || p.0 == v
    ensures Waiting(queue + [p], v)
  {
    var longer := queue + [p];
    if Waiting(queue, v) {
      var i :| 0 <= i < |queue| && queue[i].0 == v;
      assert longer[i].0 == v;
    } else {
      assert longer[|queue|].0 == v;
    }
  }

  lemma FoundMore(edges: seq<Edge>, impact: bool, maxDepth: int, seeds: seq<string>, paths: Paths, cur: string, e: Edge,
                  to: string)
    requires Found(edges, impact, maxDepth, seeds, paths) && cur in paths && to !in paths
    requires e in edges && Step(impact, e, cur, to) && Expands(impact, maxDepth, |paths[cur]|)
    ensures Found(edges, impact, maxDepth, seeds, paths[to := paths[cur] + [e]])
  {
    FoundFromSeed(edges, impact, maxDepth, seeds, paths, cur);
    var s :| s in seeds && Chain(edges, impact, s, paths[cur], cur);
    ChainExtend(edges, impact, s, paths[cur], cur, e, to);
    assert FromSeed(edges, impact, seeds, paths[cur] + [e], to);
    hide Chain, FromSeed;
  }

  /** `Turn` in pieces, and back. */
  lemma TurnParts(edges: seq<Edge>, impact: bool, maxDepth: int, seeds: seq<string>, paths: Paths,
                  queue: seq<(string, int)>,
                  cur: string, depth: int, done: seq<(string, Edge)>)
    ensures Turn(edges, impact, maxDepth, seeds, paths, queue, cur, depth, done) <==>
            && Found(edges, impact, maxDepth, seeds, paths)
            && cur in paths && |paths[cur]| == depth && Expands(impact, maxDepth, depth)
            && TurnQueue(paths, queue, depth) && Covered(edges, impact, maxDepth, paths, queue, {cur})
               && Seen(impact, paths, done)
  {
    hide Found, Expands, TurnQueue, Covered, Seen;
  }

  lemma TurnStarts(edges: seq<Edge>, impact: bool, maxDepth: int, seeds: seq<string>, paths: Paths,
                   queue: seq<(string, int)>)
    requires Progress(edges, impact, maxDepth, seeds, paths, queue) && queue != []
             && Expands(impact, maxDepth, queue[0].1)
    ensures Turn(edges, impact, maxDepth, seeds, paths, queue[1..], queue[0].0, queue[0].1, [])
  {
    hide Found, Covered, Queued, TurnQueue;
    CoveredTail(edges, impact, maxDepth, paths, queue);
    QueueTail(paths, queue);
  }

  /** A node at the bound is dropped without a look at its neighbours. */
  lemma SkippedKeeps(edges: seq<Edge>, impact: bool, maxDepth: int, seeds: seq<string>, paths: Paths,
                     queue: seq<(string, int)>)
    requires Progress(edges, impact, maxDepth, seeds, paths, queue) && queue != []
             && !Expands(impact, maxDepth, queue[0].1)
    ensures Progress(edges, impact, maxDepth, seeds, paths, queue[1..])
  {
    hide Found, Covered, Queued, TurnQueue, Expanded;
    CoveredTail(edges, impact, maxDepth, paths, queue);
    QueueTail(paths, queue);
    CoveredBack(edges, impact, maxDepth, paths, queue[1..], queue[0].0);
    QueueBack(paths, queue[1..], queue[0].1);
  }

  lemma AllSeenIsHandled(edges: seq<Edge>, impact: bool, maxDepth: int, adj: Adjacency, paths: Paths, cur: string)
    requires IsAdjacency(edges, impact, adj)
    requires cur in paths && Seen(impact, paths, Neighbours(adj, cur)) && forall v :: v in paths ==>
               |paths[v]| <= |paths[cur]| + 1
    ensures Handled(edges, impact, maxDepth, paths, cur)
  {
    forall w | (cur, w) in StepGraph(edges, impact) ensures w in paths && |paths[w]| <= |paths[cur]| + 1 {
      StepGraphHas(edges, impact, cur, w);
      var e :| e in edges && Step(impact, e, cur, w);
      assert Adjacent(adj, cur, w, e);
    }
  }

  lemma TurnEnds(edges: seq<Edge>, impact: bool, maxDepth: int, seeds: seq<string>, adj: Adjacency, paths: Paths,
                 queue: seq<(string, int)>, cur: string, depth: int)
    requires IsAdjacency(edges, impact, adj)
    requires Turn(edges, impact, maxDepth, seeds, paths, queue, cur, depth, Neighbours(adj, cur))
    ensures Progress(edges, impact, maxDepth, seeds, paths, queue)
  {
    assert forall v :: v in paths ==> |paths[v]| <= depth + 1;
    hide Found, Covered, Queued, TurnQueue, Seen, Handled;
    AllSeenIsHandled(edges, impact, maxDepth, adj, paths, cur);
    CoveredBack(edges, impact, maxDepth, paths, queue, cur);
    QueueBack(paths, queue, depth);
  }

  lemma SeenMore(impact: bool, paths: Paths, done: seq<(string, Edge)>, to: string, path: seq<Edge>, e: Edge)
    requires Seen(impact, paths, done)
    ensures Seen(impact, paths[to := path], done + [(to, e)])
  {
  }

  lemma TurnDiscovers(edges: seq<Edge>, impact: bool, maxDepth: int, seeds: seq<string>, paths: Paths,
                      queue: seq<(string, int)>,
                      cur: string, depth: int, done: seq<(string, Edge)>, to: string, e: Edge)
    requires Turn(edges, impact, maxDepth, seeds, paths, queue, cur, depth, done)
    requires to !in paths && e in edges && Step(impact, e, cur, to)
    ensures Turn(edges, impact, maxDepth, seeds, paths[to := paths[cur] + [e]], queue + [(to, depth + 1)], cur, depth,
                 done + [(to, e)])
  {
    hide *;
    TurnParts(edges, impact, maxDepth, seeds, paths, queue, cur, depth, done);
    var path := paths[cur] + [e];
    var after := paths[to := path];
    SeenMore(impact, paths, done, to, path, e);
    FoundMore(edges, impact, maxDepth, seeds, paths, cur, e, to);
    CoveredDiscovers(edges, impact, maxDepth, paths, queue, cur, to, path, depth + 1);
    QueueDiscovers(paths, queue, depth, to, path);
    assert after[cur] == paths[cur];
    TurnParts(edges, impact, maxDepth, seeds, after, queue + [(to, depth + 1)], cur, depth, done + [(to, e)]);
  }

  lemma TurnPasses(edges: seq<Edge>, impact: bool, maxDepth: int, seeds: seq<string>, paths: Paths,
                   queue: seq<(string, int)>,
                   cur: string, depth: int, done: seq<(string, Edge)>, to: string, e: Edge)
    requires Turn(edges, impact, maxDepth, seeds, paths, queue, cur, depth, done)
    requires to in paths || !Enters(impact, e, to)
    ensures Turn(edges, impact, maxDepth, seeds, paths, queue, cur, depth, done + [(to, e)])
  {
    hide Found, Covered, TurnQueue;
  }

  ghost function Undiscovered(edges: seq<Edge>, paths: Paths): set<string> {
    Ends(edges) - paths.Keys
  }

  ghost function Ends(edges: seq<Edge>): set<string> {
    (set e | e in edges :: e.source) + (set e | e in edges :: e.target)
  }

  method Walks(edges: seq<Edge>, seeds: seq<string>, impact: bool, maxDepth: int) returns (paths: Paths)
    ensures WalkResult(edges, impact, maxDepth, seeds, paths)
  {
    var adj := BuildAdjacency(edges, impact);
    var queue;
    paths, queue := Start(edges, impact, maxDepth, seeds);
    while queue != []
      invariant Progress(edges, impact, maxDepth, seeds, paths, queue)
      decreases Undiscovered(edges, paths), |queue|
    {
      hide Progress, Undiscovered;
      paths, queue := VisitHead(edges, adj, impact, maxDepth, seeds, paths, queue);
    }
    FinishedIsResult(edges, impact, maxDepth, seeds, paths);
  }

  method Start(edges: seq<Edge>, impact: bool, maxDepth: int, seeds: seq<string>)
    returns (paths: Paths, queue: seq<(string, int)>)
    ensures Progress(edges, impact, maxDepth, seeds, paths, queue)
  {
    var ordered := StableSort(CompareText(), seeds);
    paths, queue := map[], [];
    for i := 0 to |ordered|
      invariant Planted(ordered, i, paths, queue)
    {
      paths := paths[ordered[i] := []];
      queue := queue + [(ordered[i], 0)];
    }
    hide StableSort;
    SameMembers(ordered, seeds);
  }

  /** The first `n` seeds are found at no distance and queued. */
  ghost predicate Planted(seeds: seq<string>, n: int, paths: Paths, queue: seq<(string, int)>) {
    && 0 <= n <= |seeds| && |queue| == n && (forall j :: 0 <= j < n ==> queue[j] == (seeds[j], 0) && seeds[j] in paths)
    && (forall v :: v in paths ==> paths[v] == [] && Waiting(queue, v))
  }

  lemma SameMembers(a: seq<string>, b: seq<string>)
    requires multiset(a) == multiset(b)
    ensures forall s :: s in a <==> s in b
  {
    forall s ensures s in a <==> s in b {
      assert s in multiset(a) <==> s in multiset(b);
    }
  }

  /** Take the head of the queue and, within the bound, find its new neighbours. */
  method VisitHead(edges: seq<Edge>, adj: Adjacency, impact: bool, maxDepth: int, seeds: seq<string>, before: Paths,
                   waiting: seq<(string, int)>)
    returns (paths: Paths, queue: seq<(string, int)>)
    requires IsAdjacency(edges, impact, adj)
    requires Progress(edges, impact, maxDepth, seeds, before, waiting) && waiting != []
    ensures Progress(edges, impact, maxDepth, seeds, paths, queue)
    ensures Undiscovered(edges, paths) < Undiscovered(edges, before) || (paths == before && |queue| < |waiting|)
  {
    hide *;
    var rest := waiting[1..];
    if Expands(impact, maxDepth, waiting[0].1) {
      TurnStarts(edges, impact, maxDepth, seeds, before, waiting);
      paths, queue := LookAround(edges, adj, impact, maxDepth, seeds, before, rest, waiting[0].0, waiting[0].1);
      TurnEnds(edges, impact, maxDepth, seeds, adj, paths, queue, waiting[0].0, waiting[0].1);
    } else {
      SkippedKeeps(edges, impact, maxDepth, seeds, before, waiting);
      paths, queue := before, rest;
    }
  }

  /** The loop over the neighbours of `cur`. */
  method LookAround(edges: seq<Edge>, adj: Adjacency, impact: bool, maxDepth: int, seeds: seq<string>, before: Paths,
                    rest: seq<(string, int)>,
                    cur: string, depth: int)
    returns (paths: Paths, queue: seq<(string, int)>)
    requires IsAdjacency(edges, impact, adj)
    requires Turn(edges, impact, maxDepth, seeds, before, rest, cur, depth, [])
    ensures Turn(edges, impact, maxDepth, seeds, paths, queue, cur, depth, Neighbours(adj, cur))
    ensures Undiscovered(edges, paths) < Undiscovered(edges, before) || (paths == before && queue == rest)
  {
    paths, queue := before, rest;
    var neighbours := Neighbours(adj, cur);
    hide *;
    for i := 0 to |neighbours|
      invariant Turn(edges, impact, maxDepth, seeds, paths, queue, cur, depth, neighbours[..i])
      invariant Undiscovered(edges, paths) < Undiscovered(edges, before) || (paths == before && queue == rest)
    {
      var target, e := neighbours[i].0, neighbours[i].1;
      ghost var done := neighbours[..i];
      assert neighbours[..i + 1] == done + [(target, e)];
      NeighbourConnects(edges, impact, adj, cur, i);
      CurrentIsFound(edges, impact, maxDepth, seeds, paths, queue, cur, depth, done);
      if target in paths || !Enters(impact, e, target) {
        TurnPasses(edges, impact, maxDepth, seeds, paths, queue, cur, depth, done, target, e);
      } else {
        StepOf(impact, e, cur, target);
        TurnDiscovers(edges, impact, maxDepth, seeds, paths, queue, cur, depth, done, target, e);
        DiscoveryShrinks(edges, impact, paths, cur, e, target);
        paths := paths[target := paths[cur] + [e]];
        queue := queue + [(target, depth + 1)];
      }
    }
    TakeAll(neighbours);
  }

  lemma NeighbourConnects(edges: seq<Edge>, impact: bool, adj: Adjacency, cur: string, i: int)
    requires IsAdjacency(edges, impact, adj) && 0 <= i < |Neighbours(adj, cur)|
    ensures var p := Neighbours(adj, cur)[i]; p.1 in edges && Connects(impact, p.1, cur, p.0)
  {
    var p := Neighbours(adj, cur)[i];
    assert Adjacent(adj, cur, p.0, p.1);
  }

  lemma StepOf(impact: bool, e: Edge, cur: string, to: string)
    requires Connects(impact, e, cur, to) && Enters(impact, e, to)
    ensures Step(impact, e, cur, to)
  {
  }

  lemma CurrentIsFound(edges: seq<Edge>, impact: bool, maxDepth: int, seeds: seq<string>, paths: Paths,
                       queue: seq<(string, int)>,
                       cur: string, depth: int, done: seq<(string, Edge)>)
    requires Turn(edges, impact, maxDepth, seeds, paths, queue, cur, depth, done)
    ensures cur in paths
  {
  }

  lemma DiscoveryShrinks(edges: seq<Edge>, impact: bool, paths: Paths, cur: string, e: Edge, to: string)
    requires cur in paths && to !in paths && e in edges && Connects(impact, e, cur, to)
    ensures Undiscovered(edges, paths[to := paths[cur] + [e]]) < Undiscovered(edges, paths)
  {
    assert to in Undiscovered(edges, paths);
    assert to !in Undiscovered(edges, paths[to := paths[cur] + [e]]);
  }

  // ---------------------------------------------------------------- what the result means

  /** In impact mode the walk finds exactly what the permitted directions reach from some seed. */
  lemma ImpactIsReachability(edges: seq<Edge>, seeds: seq<string>, maxDepth: int, paths: Paths, v: string)
    requires WalkResult(edges, true, maxDepth, seeds, paths)
    ensures v in paths <==> exists s :: s in seeds && Reaches(StepGraph(edges, true), s, v)
  {
    if v in paths {
      var s :| s in seeds && Chain(edges, true, s, paths[v], v);
      ChainIsWalk(edges, true, s, paths[v], v);
      assert Reaches(StepGraph(edges, true), s, v);
    }
    if s :| s in seeds && Reaches(StepGraph(edges, true), s, v) {
      var n: nat :| Walk(StepGraph(edges, true), s, v, n);
    }
  }

  /** In context mode it finds exactly what some walk of at most `maxDepth` permitted steps reaches. */
  lemma ContextIsBoundedReachability(edges: seq<Edge>, seeds: seq<string>, maxDepth: int, paths: Paths, v: string)
    requires WalkResult(edges, false, maxDepth, seeds, paths)
    ensures v in paths <==>
            exists s, n: nat :: s in seeds && Walk(StepGraph(edges, false), s, v, n) && (n == 0 || n <= maxDepth)
  {
    if v in paths {
      var s :| s in seeds && Chain(edges, false, s, paths[v], v);
      ChainIsWalk(edges, false, s, paths[v], v);
      var n := |paths[v]|;
      assert Walk(StepGraph(edges, false), s, v, n) && (n == 0 || n <= maxDepth);
    }
  }

  /** In either mode the chain kept for a node is a real one, and no permitted walk to it is shorter. */
  lemma ChainsAreShortest(edges: seq<Edge>, impact: bool, maxDepth: int, seeds: seq<string>, paths: Paths, v: string,
                          s: string, n: nat)
    requires WalkResult(edges, impact, maxDepth, seeds, paths) && v in paths
    requires s in seeds && Walk(StepGraph(edges, impact), s, v, n)
    ensures |paths[v]| <= n
    ensures exists t ::
              t in seeds && Chain(edges, impact, t, paths[v], v) && Walk(StepGraph(edges, impact), t, v, |paths[v]|)
  {
    var t :| t in seeds && Chain(edges, impact, t, paths[v], v);
    ChainIsWalk(edges, impact, t, paths[v], v);
    if |paths[v]| > n && n > 0 {
      assert Expands(impact, maxDepth, |paths[v]| - 1);
      assert Expands(impact, maxDepth, n - 1);
    }
  }

  // ---------------------------------------------------------------- the walk, told by relation

  /** The set holds whatever an edge passes a change on to, each relation in its own direction. */
  ghost predicate PassesOn(edges: seq<Edge>, nodes: set<string>) {
    forall e :: e in edges ==>
      && (e.relation in {"part_of", "defines", "implements", "requires"} && e.source in nodes ==> e.target in nodes)
      && (e.relation in {"depends_on", "consumes", "provides", "uses"} && e.target in nodes ==> e.source in nodes)
      && (e.relation == "verifies" ==> (e.source in nodes <==> e.target in nodes))
  }

  lemma StepPassesOn(edges: seq<Edge>, nodes: set<string>)
    ensures PassesOn(edges, nodes) <==>
            forall a, b :: (a, b) in StepGraph(edges, true) && a in nodes ==> b in nodes
  {
    forall a, b ensures (a, b) in StepGraph(edges, true) <==> exists e :: e in edges && Step(true, e, a, b) {
      StepGraphHas(edges, true, a, b);
    }
    hide StepGraph;
    if forall a, b :: (a, b) in StepGraph(edges, true) && a in nodes ==> b in nodes {
      forall e | e in edges
        ensures FollowsForward(e.relation) && e.source in nodes ==> e.target in nodes
        ensures FollowsBackward(e.relation) && e.target in nodes ==> e.source in nodes
      {
        if FollowsForward(e.relation) { assert Step(true, e, e.source, e.target); }
        if FollowsBackward(e.relation) { assert Step(true, e, e.target, e.source); }
      }
    }
  }

  /**
   Impact is the least set that holds the seeds and whatever an edge passes a change on to: nothing that
   a change can spread to is missed, and nothing else is reported.
   */
  lemma ImpactIsLeastClosure(edges: seq<Edge>, seeds: seq<string>, maxDepth: int, paths: Paths, other: set<string>)
    requires WalkResult(edges, true, maxDepth, seeds, paths)
    ensures (forall s :: s in seeds ==> s in paths) && PassesOn(edges, paths.Keys)
    ensures (forall s :: s in seeds ==> s in other) && PassesOn(edges, other) ==> paths.Keys <= other
  {
    hide *;
    StepPassesOn(edges, paths.Keys);
    StepPassesOn(edges, other);
    ImpactCloses(edges, seeds, maxDepth, paths);
    if (forall s :: s in seeds ==> s in other) && PassesOn(edges, other) {
      forall v | v in paths ensures v in other {
        ImpactIsReachability(edges, seeds, maxDepth, paths, v);
        var s :| s in seeds && Reaches(StepGraph(edges, true), s, v);
        ClosedContainsReachable(StepGraph(edges, true), other, s, v);
      }
    }
  }

  lemma ImpactCloses(edges: seq<Edge>, seeds: seq<string>, maxDepth: int, paths: Paths)
    requires WalkResult(edges, true, maxDepth, seeds, paths)
    ensures forall s :: s in seeds ==> s in paths
    ensures forall a, b :: (a, b) in StepGraph(edges, true) && a in paths ==> b in paths
  {
    hide *;
    var g := StepGraph(edges, true);
    forall s | s in seeds ensures s in paths {
      ReachesSelf(g, s);
      ImpactIsReachability(edges, seeds, maxDepth, paths, s);
    }
    forall a, b | (a, b) in g && a in paths ensures b in paths {
      ImpactIsReachability(edges, seeds, maxDepth, paths, a);
      var s :| s in seeds && Reaches(g, s, a);
      ReachesStep(g, s, a, b);
      ImpactIsReachability(edges, seeds, maxDepth, paths, b);
    }
  }

  /** The edge joins the two nodes, whichever way it points. */
  predicate Between(e: Edge, a: string, b: string) {
    (e.source == a && e.target == b) || (e.source == b && e.target == a)
  }

  /**
   Context takes every edge both ways, one level deeper each, up to the bound; only a file is never
   entered through `part_of`.
   */
  lemma ContextFollowsEveryEdge(edges: seq<Edge>, seeds: seq<string>, maxDepth: int, paths: Paths, e: Edge, a: string,
                                b: string)
    requires WalkResult(edges, false, maxDepth, seeds, paths) && e in edges && Between(e, a, b)
    requires a in paths && |paths[a]| < maxDepth && !(e.relation == "part_of" && "file:" <= b)
    ensures b in paths && |paths[b]| <= |paths[a]| + 1
  {
    var s :| s in seeds && Chain(edges, false, s, paths[a], a);
    assert Step(false, e, a, b);
    ChainExtend(edges, false, s, paths[a], a, e, b);
    ChainIsWalk(edges, false, s, paths[a] + [e], b);
    assert Expands(false, maxDepth, |paths[a] + [e]| - 1);
  }

  /** Whatever context found is a seed or was entered by an edge, and a file not by `part_of`. */
  lemma ContextEntersNoSiblings(edges: seq<Edge>, seeds: seq<string>, maxDepth: int, paths: Paths, v: string)
    requires WalkResult(edges, false, maxDepth, seeds, paths) && v in paths && v !in seeds
    ensures paths[v] != [] && |paths[v]| <= maxDepth
    ensures var e := paths[v][|paths[v]| - 1];
            e in edges && (e.source == v || e.target == v) && !(e.relation == "part_of" && "file:" <= v)
  {
    var s :| s in seeds && Chain(edges, false, s, paths[v], v);
  }
}
