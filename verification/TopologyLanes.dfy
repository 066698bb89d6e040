/**
 Rows of the topology view, first half: which branch of the fan-out a step belongs to. A branch edge
 seeds its target with the edge's position, and a label-correcting worklist carries the smallest
 position forward.
 */
module TopologyLanes {
  import opened Prelude
  import opened Graphs
  import opened TopologyPrecedence

  /** The edges a lane propagates along: everything but `review` and `collect`. */
  ghost function ForwardGraph(edges: seq<Edge>): set<(string, string)> {
    set i | 0 <= i < |edges| && Forward(edges[i]) :: (edges[i].source, edges[i].target)
  }

  /** The `i`-th edge is a branch edge whose target reaches `v` along forward edges. */
  ghost predicate Feeds(edges: seq<Edge>, i: int, v: string) {
    0 <= i < |edges| && edges[i].kind == "branch" && Reaches(ForwardGraph(edges), edges[i].target, v)
  }

  /** `lane` is the position of the first branch edge that feeds `v`. */
  ghost predicate IsLane(edges: seq<Edge>, v: string, lane: nat) {
    Feeds(edges, lane, v) && forall i :: Feeds(edges, i, v) ==> lane <= i
  }

  /** A node has a lane exactly when some branch edge feeds it, and then it is the first such edge's. */
  ghost predicate LanesRight(edges: seq<Edge>, laneOf: map<string, nat>) {
    && (forall v :: v in laneOf ==> IsLane(edges, v, laneOf[v]))
    && (forall v, i :: Feeds(edges, i, v) ==> v in laneOf)
  }

  // ---------------------------------------------------------------- seeding

  /** `first[t]` is the position of the first branch edge into `t` among `edges`. */
  ghost predicate Seeds(edges: seq<Edge>, first: map<string, nat>) {
    && (forall i :: 0 <= i < |edges| && edges[i].kind == "branch" ==>
          edges[i].target in first && first[edges[i].target] <= i)
    && (forall t :: t in first ==>
          first[t] < |edges| && edges[first[t]].kind == "branch" && edges[first[t]].target == t)
  }

  ghost predicate IsAdjacency(edges: seq<Edge>, adj: map<string, seq<string>>) {
    forall a, b :: Has(adj, a, b) <==>
             exists i :: 0 <= i < |edges| && Forward(edges[i]) && edges[i].source == a && edges[i].target == b
  }

  lemma SeedsOneMore(edges: seq<Edge>, first: map<string, nat>, e: Edge)
    requires Seeds(edges, first)
    ensures Seeds(edges + [e], if e.kind == "branch" && e.target !in first then first[e.target := |edges|] else first)
  {
  }

  lemma AdjacencyOneMore(edges: seq<Edge>, adj: map<string, seq<string>>, e: Edge)
    requires IsAdjacency(edges, adj)
    ensures IsAdjacency(edges + [e], if Forward(e) then Push(adj, e.source, e.target) else adj)
  {
    var after := if Forward(e) then Push(adj, e.source, e.target) else adj;
    var edges' := edges + [e];
    forall a, b ensures Has(after, a, b) <==>
        exists i :: 0 <= i < |edges'| && Forward(edges'[i]) && edges'[i].source == a && edges'[i].target == b
    {
      if Has(adj, a, b) {
        var i :| 0 <= i < |edges| && Forward(edges[i]) && edges[i].source == a && edges[i].target == b;
        assert edges'[i] == edges[i];
      }
      assert edges'[|edges|] == e;
    }
  }

  /** `order` lists the keys of `first` as the source's `Map` iterates them: by insertion. */
  method SeedLanes(edges: seq<Edge>)
    returns (adj: map<string, seq<string>>, first: map<string, nat>, order: seq<string>)
    ensures IsAdjacency(edges, adj) && Seeds(edges, first)
    ensures forall t :: t in order <==> t in first
  {
    adj, first, order := map[], map[], [];
    for index := 0 to |edges|
      invariant IsAdjacency(edges[..index], adj) && Seeds(edges[..index], first)
      invariant forall t :: t in order <==> t in first
    {
      hide IsAdjacency, Seeds;
      var e := edges[index];
      AdjacencyOneMore(edges[..index], adj, e);
      SeedsOneMore(edges[..index], first, e);
      assert edges[..index + 1] == edges[..index] + [e];
      if e.kind != "review" && e.kind != "collect" {
        adj := Push(adj, e.source, e.target);
        if e.kind == "branch" && e.target !in first {
          first := first[e.target := index];
          order := order + [e.target];
        }
      }
    }
    assert edges[..|edges|] == edges;
  }

  // ---------------------------------------------------------------- propagation

  /** Every step directly after `v` already has a lane no larger than that of `v`. */
  ghost predicate Settled(adj: map<string, seq<string>>, laneOf: map<string, nat>, v: string) {
    v in laneOf && forall w :: Has(adj, v, w) ==> w in laneOf && laneOf[w] <= laneOf[v]
  }

  /** The loop invariant of the worklist. */
  ghost predicate Progress(edges: seq<Edge>, adj: map<string, seq<string>>, first: map<string, nat>,
                           laneOf: map<string, nat>, queue: seq<string>) {
    && (forall v :: v in laneOf ==> Feeds(edges, laneOf[v], v))
    && (forall t :: t in first ==> t in laneOf && laneOf[t] <= first[t])
    && (forall v :: v in queue ==> v in laneOf)
    && (forall v :: v in laneOf ==> v in queue || Settled(adj, laneOf, v))
  }

  /** The lanes still below the current one of each node: what a step of the worklist uses up. */
  ghost function Slack(edges: seq<Edge>, laneOf: map<string, nat>): set<(string, nat)> {
    set i, lane: nat | 0 <= i < |edges| && lane < |edges|
      && (edges[i].target !in laneOf || lane < laneOf[edges[i].target])
      :: (edges[i].target, lane)
  }

  /** The lanes `after` leave less room below them than the lanes `before`. */
  ghost predicate Lower(edges: seq<Edge>, after: map<string, nat>, before: map<string, nat>) {
    Slack(edges, after) < Slack(edges, before)
  }

  lemma LowerStill(edges: seq<Edge>, last: map<string, nat>, after: map<string, nat>, before: map<string, nat>)
    requires Lower(edges, last, after) && (after == before || Lower(edges, after, before))
    ensures Lower(edges, last, before)
  {
  }

  lemma SlackShrinks(edges: seq<Edge>, laneOf: map<string, nat>, i: nat, lane: nat)
    requires i < |edges| && lane < |edges|
    requires edges[i].target in laneOf ==> lane < laneOf[edges[i].target]
    ensures Lower(edges, laneOf[edges[i].target := lane], laneOf)
  {
    var after := laneOf[edges[i].target := lane];
    assert (edges[i].target, lane) in Slack(edges, laneOf);
    assert (edges[i].target, lane) !in Slack(edges, after);
    forall p | p in Slack(edges, after) ensures p in Slack(edges, laneOf) {
    }
  }

  lemma FeedsNext(edges: seq<Edge>, i: int, v: string, w: string)
    requires Feeds(edges, i, v) && (v, w) in ForwardGraph(edges)
    ensures Feeds(edges, i, w)
  {
    ReachesStep(ForwardGraph(edges), edges[i].target, v, w);
  }

  /** When every node is settled, lanes never exceed those upstream. */
  lemma {:induction false} SettledBelowWalk(edges: seq<Edge>, adj: map<string, seq<string>>, laneOf: map<string, nat>,
                                            t: string, v: string, n: nat)
    requires IsAdjacency(edges, adj) && forall u :: u in laneOf ==> Settled(adj, laneOf, u)
    requires t in laneOf && Walk(ForwardGraph(edges), t, v, n)
    ensures v in laneOf && laneOf[v] <= laneOf[t]
    decreases n
  {
    if n > 0 {
      var u :| Walk(ForwardGraph(edges), t, u, n - 1) && (u, v) in ForwardGraph(edges);
      SettledBelowWalk(edges, adj, laneOf, t, u, n - 1);
      assert Settled(adj, laneOf, u) && Has(adj, u, v);
    }
  }

  lemma {:induction false} LanesAreLeast(edges: seq<Edge>, adj: map<string, seq<string>>, first: map<string, nat>,
                                         laneOf: map<string, nat>)
    requires IsAdjacency(edges, adj) && Seeds(edges, first) && Progress(edges, adj, first, laneOf, [])
    ensures LanesRight(edges, laneOf)
  {
    forall v, i | Feeds(edges, i, v) ensures v in laneOf && laneOf[v] <= i {
      var t := edges[i].target;
      var n: nat :| Walk(ForwardGraph(edges), t, v, n);
      SettledBelowWalk(edges, adj, laneOf, t, v, n);
    }
  }

  /**
   The worklist: on every graph, cyclic ones included, it stops, and a step has a lane exactly when
   some branch edge feeds it, namely the position of the first one that does.
   */
  method PropagateLanes(edges: seq<Edge>) returns (laneOf: map<string, nat>)
    ensures LanesRight(edges, laneOf)
  {
    var adj, first, order := SeedLanes(edges);
    laneOf := map[];
    var queue: seq<string> := [];
    for i := 0 to |order|
      invariant queue == order[..i]
      invariant forall v :: v in laneOf <==> v in queue
      invariant forall v :: v in laneOf ==> v in first && laneOf[v] == first[v]
    {
      assert order[..i + 1] == order[..i] + [order[i]];
      laneOf := laneOf[order[i] := first[order[i]]];
      queue := queue + [order[i]];
    }
    assert order[..|order|] == order;
    SeedsProgress(edges, adj, first, laneOf, queue);
    while queue != []
      invariant Progress(edges, adj, first, laneOf, queue)
      decreases Slack(edges, laneOf), |queue|
    {
      hide Progress, Slack;
      laneOf, queue := VisitNext(edges, adj, first, laneOf, queue);
    }
    LanesAreLeast(edges, adj, first, laneOf);
  }

  lemma SeedsProgress(edges: seq<Edge>, adj: map<string, seq<string>>, first: map<string, nat>, laneOf: map<string,
                      nat>, queue: seq<string>)
    requires Seeds(edges, first) && laneOf == first && forall v :: v in laneOf <==> v in queue
    ensures Progress(edges, adj, first, laneOf, queue)
  {
    forall v | v in laneOf ensures Feeds(edges, laneOf[v], v) {
      ReachesSelf(ForwardGraph(edges), v);
    }
  }

  /** One turn of the worklist: take its head and lower whatever it leads to. */
  method VisitNext(edges: seq<Edge>, adj: map<string, seq<string>>, first: map<string, nat>, before: map<string, nat>,
                   waiting: seq<string>)
    returns (laneOf: map<string, nat>, queue: seq<string>)
    requires IsAdjacency(edges, adj) && Progress(edges, adj, first, before, waiting) && waiting != []
    ensures Progress(edges, adj, first, laneOf, queue)
    ensures Lower(edges, laneOf, before) || (laneOf == before && |queue| < |waiting|)
  {
    var cur := waiting[0];
    laneOf, queue := before, waiting[1..];
    var lane := laneOf[cur];
    var successors := Listed(adj, cur);
    TurnStarts(edges, adj, first, before, waiting);
    assert forall w :: w in successors ==> Has(adj, cur, w);
    hide *;
    for i := 0 to |successors|
      invariant Turn(edges, adj, first, laneOf, queue, cur, lane, successors[..i])
      invariant Lower(edges, laneOf, before) || (laneOf == before && queue == waiting[1..])
    {
      var next := successors[i];
      TurnOneMore(edges, adj, first, laneOf, queue, cur, lane, successors[..i], next);
      TakeOneMore(successors, i);
      if next !in laneOf || lane < laneOf[next] {
        LowerStill(edges, laneOf[next := lane], laneOf, before);
        laneOf := laneOf[next := lane];
        queue := queue + [next];
      }
    }
    TakeAll(successors);
    TurnEnds(edges, adj, first, laneOf, queue, cur, lane);
  }

  /** The invariant inside a turn: `cur` has left the queue and the steps in `done` have been lowered. */
  ghost predicate Turn(edges: seq<Edge>, adj: map<string, seq<string>>, first: map<string, nat>,
                       laneOf: map<string, nat>, queue: seq<string>, cur: string, lane: nat, done: seq<string>) {
    && (forall v :: v in laneOf ==> Feeds(edges, laneOf[v], v))
    && (forall t :: t in first ==> t in laneOf && laneOf[t] <= first[t])
    && (forall v :: v in queue ==> v in laneOf)
    && (forall v :: v in laneOf && v != cur ==> v in queue || Settled(adj, laneOf, v))
    && cur in laneOf && laneOf[cur] == lane
    && (forall w :: w in done ==> w in laneOf && laneOf[w] <= lane)
  }

  lemma TurnStarts(edges: seq<Edge>, adj: map<string, seq<string>>, first: map<string, nat>, laneOf: map<string, nat>,
                   waiting: seq<string>)
    requires Progress(edges, adj, first, laneOf, waiting) && waiting != []
    ensures waiting[0] in laneOf
    ensures Turn(edges, adj, first, laneOf, waiting[1..], waiting[0], laneOf[waiting[0]], [])
  {
    hide Feeds, Settled;
    assert forall v :: v in waiting <==> v == waiting[0] || v in waiting[1..];
  }

  lemma SettledKept(adj: map<string, seq<string>>, laneOf: map<string, nat>, v: string, next: string, lane: nat)
    requires Settled(adj, laneOf, v) && v != next && (next in laneOf ==> lane < laneOf[next])
    ensures Settled(adj, laneOf[next := lane], v)
  {
  }

  /** Looking at one more step after `cur`, and lowering its lane if `cur` has a smaller one. */
  lemma TurnOneMore(edges: seq<Edge>, adj: map<string, seq<string>>, first: map<string, nat>,
                    laneOf: map<string, nat>, queue: seq<string>, cur: string, lane: nat, done: seq<string>,
                    next: string)
    requires IsAdjacency(edges, adj) && Turn(edges, adj, first, laneOf, queue, cur, lane, done) && Has(adj, cur, next)
    ensures if next !in laneOf || lane < laneOf[next] then
              && Turn(edges, adj, first, laneOf[next := lane], queue + [next], cur, lane, done + [next])
              && Lower(edges, laneOf[next := lane], laneOf)
            else Turn(edges, adj, first, laneOf, queue, cur, lane, done + [next])
  {
    var k :| 0 <= k < |edges| && Forward(edges[k]) && edges[k].source == cur && edges[k].target == next;
    FeedsNext(edges, lane, cur, next);
    if next !in laneOf || lane < laneOf[next] {
      SlackShrinks(edges, laneOf, k, lane);
      TurnLowers(edges, adj, first, laneOf, queue, cur, lane, done, next);
    }
    hide IsAdjacency, Feeds, Settled, Lower, Has;
  }

  lemma TurnLowers(edges: seq<Edge>, adj: map<string, seq<string>>, first: map<string, nat>, laneOf: map<string, nat>,
                   queue: seq<string>, cur: string, lane: nat, done: seq<string>, next: string)
    requires Turn(edges, adj, first, laneOf, queue, cur, lane, done) && Feeds(edges, lane, next)
    requires next !in laneOf || lane < laneOf[next]
    ensures Turn(edges, adj, first, laneOf[next := lane], queue + [next], cur, lane, done + [next])
  {
    OthersSettled(adj, laneOf, queue, cur, lane, next);
    hide Feeds, Settled;
    assert forall v :: v in queue + [next] ==> v in laneOf[next := lane];
    assert forall w :: w in done + [next] ==> w in laneOf[next := lane] && laneOf[next := lane][w] <= lane;
  }

  lemma OthersSettled(adj: map<string, seq<string>>, laneOf: map<string, nat>, queue: seq<string>, cur: string,
                      lane: nat, next: string)
    requires forall v :: v in laneOf && v != cur ==> v in queue || Settled(adj, laneOf, v)
    requires next in laneOf ==> lane < laneOf[next]
    ensures forall v :: v in laneOf[next := lane] && v != cur ==>
              v in queue + [next] || Settled(adj, laneOf[next := lane], v)
  {
    var after := laneOf[next := lane];
    forall v | v in after && v != cur ensures v in queue + [next] || Settled(adj, after, v) {
      if v != next && v !in queue { SettledKept(adj, laneOf, v, next, lane); }
    }
  }

  lemma TurnEnds(edges: seq<Edge>, adj: map<string, seq<string>>, first: map<string, nat>,
                 laneOf: map<string, nat>, queue: seq<string>, cur: string, lane: nat)
    requires Turn(edges, adj, first, laneOf, queue, cur, lane, Listed(adj, cur))
    ensures Progress(edges, adj, first, laneOf, queue)
  {
    assert Settled(adj, laneOf, cur);
  }
}
