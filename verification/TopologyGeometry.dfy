/** What the finished layout guarantees, for every input, about boxes, channels and lanes. */
module TopologyGeometry {
  import opened Prelude
  import opened Graphs
  import opened StableSorting
  import opened TopologyPrecedence
  import opened TopologyRank
  import opened TopologyRows
  import opened TopologyLayout

  /** No two boxes overlap if, and only if, the node ids are pairwise different. */
  lemma {:induction false} BoxesApart(nodes: seq<Node>, collate: (string, string) -> int, plan: Plan, layout: Layout)
    requires OnPlan(nodes, layout.nodes, plan.ranks, plan.rows)
    requires RowsRight(Ids(nodes), plan.ranks, plan.laneOf, collate, plan.rows)
    ensures (forall i, j :: 0 <= i < j < |layout.nodes| ==> !Overlap(layout.nodes[i], layout.nodes[j])) <==>
              Distinct(Ids(nodes))
  {
    BoxesOverlapOnlyForRepeatedIds(nodes, layout.nodes, plan.ranks, plan.laneOf, collate, plan.rows);
  }

  /** Every box lies inside the picture with the padding to spare, and above `bottom`. */
  lemma BoxesInside(nodes: seq<Node>, plan: Plan, layout: Layout, k: nat)
    requires OnPlan(nodes, layout.nodes, plan.ranks, plan.rows) && Measured(layout.nodes, plan) && Sized(layout, plan)
             && k < |layout.nodes|
    ensures var n := layout.nodes[k];
            && PADDING <= n.x && n.x + NODE_WIDTH + PADDING <= layout.width
            && NODE_Y <= n.y && n.y + NODE_HEIGHT <= plan.bottom && plan.bottom + PADDING <= layout.height
  {
    assert OnGrid(layout.nodes[k]);
    RowInside(layout.nodes, plan, k);
    ColumnInside(layout, plan, k);
  }

  lemma RowInside(placed: seq<PositionedNode>, plan: Plan, k: nat)
    requires Measured(placed, plan) && k < |placed| && OnGrid(placed[k])
    ensures NODE_Y <= placed[k].y && placed[k].y + NODE_HEIGHT <= plan.bottom
  {
    assert RowsOf(placed)[k] in RowsOf(placed);
  }

  lemma ColumnInside(layout: Layout, plan: Plan, k: nat)
    requires Sized(layout, plan) && Measured(layout.nodes, plan) && k < |layout.nodes| && OnGrid(layout.nodes[k])
    ensures PADDING <= layout.nodes[k].x && layout.nodes[k].x + NODE_WIDTH + PADDING <= layout.width
    ensures plan.bottom + PADDING <= layout.height
  {
    assert RanksOf(layout.nodes)[k] in RanksOf(layout.nodes);
  }

  function DrawnEdges(plan: Plan): seq<Edge> {
    Selected(plan.valid, Drawn(plan.reviews), |plan.valid|)
  }

  /** How many edges are drawn in the fan-in band. */
  function UsedChannels(plan: Plan): nat {
    Count(DrawnEdges(plan), Backward(plan.ranks), |DrawnEdges(plan)|)
  }

  lemma ChannelBelow(bottom: int, c: nat)
    ensures bottom < ChannelY(bottom, c)
  {
  }

  /** A channel belongs to a structure edge, at its place after the review routes. */
  lemma ChannelIsStructure(collate: (string, string) -> int, plan: Plan, layout: Layout, k: nat)
    requires EdgesDrawn(collate, plan, layout) && k < |layout.edges| && layout.edges[k].route.Channel?
    ensures k >= |layout.lanes| && layout.edges[|layout.lanes|..][k - |layout.lanes|] == layout.edges[k]
    ensures plan.bottom < layout.edges[k].route.y
  {
    var m := |layout.lanes|;
    assert forall i :: 0 <= i < m ==> layout.edges[..m][i] == layout.edges[i] && layout.edges[i].route.SwimLane?;
    var c := ChannelOf(DrawnEdges(plan), layout.edges[m..], plan.reviews, plan.ranks, plan.rows, plan.bottom, k - m);
    ChannelBelow(plan.bottom, c);
  }

  lemma ChannelPair(collate: (string, string) -> int, plan: Plan, layout: Layout, j: nat, k: nat)
    requires EdgesDrawn(collate, plan, layout) && j < k < |layout.edges|
    requires layout.edges[j].route.Channel? && layout.edges[k].route.Channel?
    ensures layout.edges[j].route.y + COLLECT_CHANNEL_GAP <= layout.edges[k].route.y
  {
    var m := |layout.lanes|;
    ChannelIsStructure(collate, plan, layout, j);
    ChannelIsStructure(collate, plan, layout, k);
    ChannelsApart(DrawnEdges(plan), layout.edges[m..], plan.reviews, plan.ranks, plan.rows, plan.bottom, j - m, k - m);
  }

  /** The channels are pairwise different, and every one of them runs below every node. */
  lemma {:induction false} ChannelsBelowNodes(nodes: seq<Node>, collate: (string, string) -> int, plan: Plan,
                                              layout: Layout)
    requires OnPlan(nodes, layout.nodes, plan.ranks, plan.rows) && Measured(layout.nodes, plan)
             && EdgesDrawn(collate, plan, layout)
    ensures forall j, k ::
              0 <= j < k < |layout.edges| && layout.edges[j].route.Channel? && layout.edges[k].route.Channel?
              ==> layout.edges[j].route.y + COLLECT_CHANNEL_GAP <= layout.edges[k].route.y
    ensures forall k, i :: 0 <= k < |layout.edges| && layout.edges[k].route.Channel? && 0 <= i < |layout.nodes|
              ==> layout.nodes[i].y + NODE_HEIGHT < layout.edges[k].route.y
  {
    forall j, k | 0 <= j < k < |layout.edges| && layout.edges[j].route.Channel? && layout.edges[k].route.Channel?
      ensures layout.edges[j].route.y + COLLECT_CHANNEL_GAP <= layout.edges[k].route.y
    {
      hide OnPlan, Measured, EdgesDrawn;
      ChannelPair(collate, plan, layout, j, k);
    }
    forall k, i | 0 <= k < |layout.edges| && layout.edges[k].route.Channel? && 0 <= i < |layout.nodes|
      ensures layout.nodes[i].y + NODE_HEIGHT < layout.edges[k].route.y
    {
      assert OnGrid(layout.nodes[i]);
      hide OnPlan, Measured, EdgesDrawn;
      ChannelIsStructure(collate, plan, layout, k);
      RowInside(layout.nodes, plan, i);
    }
  }

  /**
   All channels run above the first swim-lane if, and only if, the edges drawn in the band exceed
   those it was sized for by at most five, or are at most three when it was sized for none.
   */
  lemma {:induction false} ChannelsAboveLanes(collate: (string, string) -> int, plan: Plan, layout: Layout)
    requires Measured(layout.nodes, plan) && EdgesDrawn(collate, plan, layout)
    ensures (forall k :: 0 <= k < |layout.edges| && layout.edges[k].route.Channel? ==>
               layout.edges[k].route.y < plan.laneBase) <==>
            UsedChannels(plan) <= if plan.backEdges > 0 then plan.backEdges + 5 else 3
  {
    var m := |layout.lanes|;
    var structure := layout.edges[m..];
    forall k: nat | k < |layout.edges| && layout.edges[k].route.Channel?
      ensures k >= m && structure[k - m] == layout.edges[k]
    {
      ChannelIsStructure(collate, plan, layout, k);
    }
    ChannelsInBand(DrawnEdges(plan), structure, plan.reviews, plan.ranks, plan.rows, plan.bottom, plan.backEdges,
                   LANE_GAP);
    BandHoldsMeans(UsedChannels(plan), plan.backEdges);
    hide *;
    assert forall k :: 0 <= k < |structure| ==> structure[k] == layout.edges[m + k];
  }

  lemma {:induction false} DrawnWithinCounted(valid: seq<Edge>, reviews: seq<Edge>, ranks: map<string, nat>, n: nat)
    requires n <= |valid|
    requires forall e :: e in valid && Drawn(reviews)(e) && e.source in ranks && e.target in ranks ==>
               ranks[e.source] != ranks[e.target]
    ensures var drawn := Selected(valid, Drawn(reviews), n);
            Count(drawn, Backward(ranks), |drawn|) <= Count(valid, CountedBack(ranks), n)
  {
    if n > 0 {
      DrawnWithinCounted(valid, reviews, ranks, n - 1);
      var front, e := Selected(valid, Drawn(reviews), n - 1), valid[n - 1];
      assert e in valid;
      if Drawn(reviews)(e) { CountAppend(front, e, Backward(ranks), |front|); }
    }
  }

  /** When no drawn structure edge joins two nodes of one column, every channel runs above the first lane. */
  lemma ChannelsClearWithoutEqualRanks(collate: (string, string) -> int, plan: Plan, layout: Layout)
    requires Measured(layout.nodes, plan) && EdgesDrawn(collate, plan, layout)
    requires forall e :: e in plan.valid && !IsReview(e) ==>
               e.source in plan.ranks && e.target in plan.ranks && plan.ranks[e.source] != plan.ranks[e.target]
    ensures forall k :: 0 <= k < |layout.edges| && layout.edges[k].route.Channel? ==>
              layout.edges[k].route.y < plan.laneBase
  {
    DrawnWithinCounted(plan.valid, plan.reviews, plan.ranks, |plan.valid|);
    ChannelsAboveLanes(collate, plan, layout);
  }

  // ---------------------------------------------------------------- the band, told from the input

  /** Some longest walk of the precedence into `a` is as long as one into `b`. */
  ghost predicate SameDepth(g: set<(string, string)>, a: string, b: string) {
    exists r: nat :: LongestAt(g, a, r) && LongestAt(g, b, r)
  }

  /** The longest walk into `a` is shorter than the one into `b`. */
  ghost predicate Shallower(g: set<(string, string)>, a: string, b: string) {
    exists q: nat, r: nat :: LongestAt(g, a, q) && LongestAt(g, b, r) && q < r
  }

  /** A branch that ends at the depth of its own join. */
  ghost function LevelCollects(g: set<(string, string)>): Edge -> bool {
    (e: Edge) => e.kind == "collect" && SameDepth(g, e.source, e.target)
  }

  /** A branch that ends deeper than its join, as a well-formed one does. */
  ghost function BackCollects(g: set<(string, string)>): Edge -> bool {
    (e: Edge) => e.kind == "collect" && Shallower(g, e.target, e.source)
  }

  /** On `e` the drawing and the sizing of the band decide as the depths of its ends do. */
  ghost predicate Told(g: set<(string, string)>, reviews: seq<Edge>, ranks: map<string, nat>, e: Edge) {
    && (Drawn(reviews)(e) && Backward(ranks)(e) <==> BackCollects(g)(e) || LevelCollects(g)(e))
    && (CountedBack(ranks)(e) <==> BackCollects(g)(e)) && !(BackCollects(g)(e) && LevelCollects(g)(e))
  }

  lemma {:induction false} CountsTold(g: set<(string, string)>, valid: seq<Edge>, reviews: seq<Edge>, ranks: map<string,
                                      nat>, n: nat)
    requires n <= |valid| && forall e :: e in valid ==> Told(g, reviews, ranks, e)
    ensures var drawn := Selected(valid, Drawn(reviews), n);
            Count(drawn, Backward(ranks), |drawn|) ==
                Count(valid, BackCollects(g), n) + Count(valid, LevelCollects(g), n)
    ensures Count(valid, CountedBack(ranks), n) == Count(valid, BackCollects(g), n)
  {
    hide *;
    if n == 0 {
      NoneCounted(g, valid, reviews, ranks);
    } else {
      var m, p := n - 1, Drawn(reviews);
      var front, e := Selected(valid, p, m), valid[m];
      CountsTold(g, valid, reviews, ranks, m);
      SelectedStep(valid, p, m);
      CountStep(valid, BackCollects(g), m);
      CountStep(valid, LevelCollects(g), m);
      CountStep(valid, CountedBack(ranks), m);
      CountSnoc(front, e, Backward(ranks));
      ToldMeans(g, reviews, ranks, e);
    }
  }

  lemma NoneCounted(g: set<(string, string)>, valid: seq<Edge>, reviews: seq<Edge>, ranks: map<string, nat>)
    ensures Selected(valid, Drawn(reviews), 0) == [] && Count([], Backward(ranks), 0) == 0
    ensures Count(valid, BackCollects(g), 0) == 0 && Count(valid, LevelCollects(g), 0) == 0
    ensures Count(valid, CountedBack(ranks), 0) == 0
  {
  }

  lemma ToldMeans(g: set<(string, string)>, reviews: seq<Edge>, ranks: map<string, nat>, e: Edge)
    requires Told(g, reviews, ranks, e)
    ensures Drawn(reviews)(e) && Backward(ranks)(e) <==> BackCollects(g)(e) || LevelCollects(g)(e)
    ensures (CountedBack(ranks)(e) <==> BackCollects(g)(e)) && !(BackCollects(g)(e) && LevelCollects(g)(e))
  {
  }

  lemma DepthsTell(g: set<(string, string)>, reviews: seq<Edge>, ranks: map<string, nat>, e: Edge)
    requires e.source in ranks && e.target in ranks
    requires LongestAt(g, e.source, ranks[e.source]) && LongestAt(g, e.target, ranks[e.target])
    requires Forward(e) ==> ranks[e.source] < ranks[e.target]
    ensures Told(g, reviews, ranks, e)
  {
    var a, b := ranks[e.source], ranks[e.target];
    forall r: nat | LongestAt(g, e.source, r) ensures r == a { DepthIsOne(g, e.source, r, a); }
    forall r: nat | LongestAt(g, e.target, r) ensures r == b { DepthIsOne(g, e.target, r, b); }
    hide LongestAt, Covered;
    assert e.kind != "sequential" ==> !Covered(reviews, e) by { if e.kind != "sequential" { NotCovered(reviews, e); } }
    assert SameDepth(g, e.source, e.target) <==> a == b;
    assert Shallower(g, e.target, e.source) <==> b < a;
  }

  lemma NotCovered(reviews: seq<Edge>, e: Edge)
    requires e.kind != "sequential"
    ensures !Covered(reviews, e)
  {
  }

  lemma DepthIsOne(g: set<(string, string)>, v: string, q: nat, r: nat)
    requires LongestAt(g, v, q) && LongestAt(g, v, r)
    ensures q == r
  {
    var a :| Walk(g, a, v, q);
    var b :| Walk(g, b, v, r);
  }

  /**
   For a precedence without cycles the layout keeps every channel above the first lane if, and only
   if, at most five branches end at the depth of their own join, or three when none ends deeper.
   Depths are longest walks of the input's precedence, so this can be told before the layout is drawn.
   */
  lemma {:induction false} ChannelsToldFromInput(nodes: seq<Node>, rawEdges: seq<Edge>,
                                                 collate: (string, string) -> int,
                                                 plan: Plan, layout: Layout)
    requires Planned(nodes, rawEdges, collate, plan) && Measured(layout.nodes, plan)
             && EdgesDrawn(collate, plan, layout)
    requires Acyclic(Precedence(plan.ids, plan.valid))
    ensures var g := Precedence(plan.ids, plan.valid);
            (forall k :: 0 <= k < |layout.edges| && layout.edges[k].route.Channel? ==>
               layout.edges[k].route.y < plan.laneBase) <==>
            Count(plan.valid, LevelCollects(g), |plan.valid|) <= if Count(plan.valid, BackCollects(g),
                  |plan.valid|) > 0 then 5 else 3
  {
    var g := Precedence(plan.ids, plan.valid);
    ChannelsAboveLanes(collate, plan, layout);
    assert plan.backEdges == Count(plan.valid, CountedBack(plan.ranks), |plan.valid|);
    AllTold(nodes, rawEdges, collate, plan);
    hide *;
    CountsTold(g, plan.valid, plan.reviews, plan.ranks, |plan.valid|);
    UsedIsCount(plan);
  }

  lemma UsedIsCount(plan: Plan)
    ensures var drawn := Selected(plan.valid, Drawn(plan.reviews), |plan.valid|);
            UsedChannels(plan) == Count(drawn, Backward(plan.ranks), |drawn|)
  {
  }

  lemma AllTold(nodes: seq<Node>, rawEdges: seq<Edge>, collate: (string, string) -> int, plan: Plan)
    requires Planned(nodes, rawEdges, collate, plan) && Acyclic(Precedence(plan.ids, plan.valid))
    ensures forall e :: e in plan.valid ==> Told(Precedence(plan.ids, plan.valid), plan.reviews, plan.ranks, e)
  {
    var g := Precedence(plan.ids, plan.valid);
    KnownEdges(nodes, rawEdges, collate, plan);
    RanksTell(plan.ids, plan.valid, plan.ranks);
    forall e | e in plan.valid ensures Told(g, plan.reviews, plan.ranks, e) {
      hide *;
      DepthsTell(g, plan.reviews, plan.ranks, e);
    }
  }

  lemma RanksTell(ids: seq<string>, valid: seq<Edge>, ranks: map<string, nat>)
    requires AllKnown(ids, valid) && RanksRight(ids, valid, ranks) && Acyclic(Precedence(ids, valid))
    ensures forall v :: v in ids ==> v in ranks && LongestAt(Precedence(ids, valid), v, ranks[v])
    ensures forall e :: e in valid && Forward(e) ==> ranks[e.source] < ranks[e.target]
  {
    var g := Precedence(ids, valid);
    forall v | v in ids ensures v in ranks && LongestAt(g, v, ranks[v]) {
      assert v in Elements(ids) && AcyclicAbove(g, v);
    }
    ColumnsFollowTheFlow(ids, valid, ranks);
  }

  /**
   So on an acyclic precedence in which every branch ends on a step that its join leads to, every
   channel runs above the first lane.
   */
  lemma {:induction false} WellFormedBranchesKeepClear(nodes: seq<Node>, rawEdges: seq<Edge>,
                                                       collate: (string, string) -> int,
                                                       plan: Plan, layout: Layout)
    requires Planned(nodes, rawEdges, collate, plan) && Measured(layout.nodes, plan)
             && EdgesDrawn(collate, plan, layout)
    requires Acyclic(Precedence(plan.ids, plan.valid))
    requires forall e :: e in plan.valid && e.kind == "collect" ==>
               Precedes(Precedence(plan.ids, plan.valid), e.target, e.source)
    ensures forall k :: 0 <= k < |layout.edges| && layout.edges[k].route.Channel? ==>
              layout.edges[k].route.y < plan.laneBase
  {
    var g := Precedence(plan.ids, plan.valid);
    ChannelsToldFromInput(nodes, rawEdges, collate, plan, layout);
    KnownEdges(nodes, rawEdges, collate, plan);
    RanksTell(plan.ids, plan.valid, plan.ranks);
    forall e | e in plan.valid && e.kind == "collect" ensures !LevelCollects(g)(e) {
      var n: nat :| n > 0 && Walk(g, e.target, e.source, n);
      DeeperAfter(g, e.target, e.source, n);
    }
    hide *;
    CountNone(plan.valid, LevelCollects(g), |plan.valid|);
  }

  lemma DeeperAfter(g: set<(string, string)>, a: string, b: string, n: nat)
    requires n > 0 && Walk(g, a, b, n)
    ensures !SameDepth(g, b, a)
  {
    if r: nat :| LongestAt(g, b, r) && LongestAt(g, a, r) {
      var c :| Walk(g, c, a, r);
      WalkConcat(g, c, a, b, r, n);
    }
  }

  lemma {:induction false} CountNone(s: seq<Edge>, p: Edge -> bool, n: nat)
    requires n <= |s| && forall e :: e in s ==> !p(e)
    ensures Count(s, p, n) == 0
  {
    if n > 0 {
      CountNone(s, p, n - 1);
      assert s[n - 1] in s;
    }
  }

  /** Lane `k` is drawn for the decision `e` and fits the picture below the nodes. */
  ghost predicate OwnsLane(plan: Plan, layout: Layout, k: nat, e: Edge) {
    && k < |layout.lanes| <= |layout.edges|
    && layout.edges[k].source == e.source && layout.edges[k].target == e.target
    && layout.edges[k].route == SwimLane(layout.lanes[k].y) && layout.lanes[k].condition == e.condition
    && layout.lanes[k].y == plan.laneBase + k * LANE_HEIGHT
    && plan.bottom < layout.lanes[k].y && layout.lanes[k].y + LANE_HEIGHT + PADDING <= layout.height
  }

  /** Every review edge gets exactly one lane, shorter routes nearer the nodes, and all lanes fit the picture. */
  lemma {:induction false} EachReviewHasALane(nodes: seq<Node>, rawEdges: seq<Edge>, collate: (string, string) -> int,
                                              plan: Plan, layout: Layout)
    returns (owner: seq<Edge>)
    requires IsLayout(nodes, rawEdges, collate, plan, layout)
    ensures multiset(owner) == multiset(plan.reviews) && |owner| == |layout.lanes|
    ensures forall k :: 0 <= k < |owner| ==> OwnsLane(plan, layout, k, owner[k])
  {
    owner := OrderedReviews(collate, plan, layout);
    if layout.lanes != [] { NodesExist(nodes, rawEdges, collate, plan, layout); }
    hide *;
    forall k | 0 <= k < |owner| ensures OwnsLane(plan, layout, k, owner[k]) {
      LaneOwned(collate, plan, layout, owner, k);
    }
  }

  lemma OrderedReviews(collate: (string, string) -> int, plan: Plan, layout: Layout)
    returns (owner: seq<Edge>)
    requires EdgesDrawn(collate, plan, layout)
    ensures owner == StableSort(CompareSpans(plan.ranks, collate), plan.reviews)
    ensures multiset(owner) == multiset(plan.reviews) && |owner| == |layout.lanes|
  {
    owner := StableSort(CompareSpans(plan.ranks, collate), plan.reviews);
  }

  lemma LaneOwned(collate: (string, string) -> int, plan: Plan, layout: Layout, owner: seq<Edge>, k: nat)
    requires Measured(layout.nodes, plan) && Sized(layout, plan) && EdgesDrawn(collate, plan, layout)
    requires k < |layout.lanes| && |layout.nodes| > 0
    requires owner == StableSort(CompareSpans(plan.ranks, collate), plan.reviews)
    ensures k < |owner| && OwnsLane(plan, layout, k, owner[k])
  {
    hide Routed, StableSort, CompareSpans;
    assert layout.edges[..|layout.lanes|][k] == layout.edges[k];
    LanesInside(plan, layout);
  }

  lemma NodesExist(nodes: seq<Node>, rawEdges: seq<Edge>, collate: (string, string) -> int, plan: Plan, layout: Layout)
    requires Planned(nodes, rawEdges, collate, plan) && |layout.nodes| == |nodes|
    requires EdgesDrawn(collate, plan, layout) && layout.lanes != []
    ensures |layout.nodes| > 0
  {
    assert plan.reviews[0] in plan.reviews;
    KnownEdges(nodes, rawEdges, collate, plan);
  }

  lemma LanesInside(plan: Plan, layout: Layout)
    requires Measured(layout.nodes, plan) && Sized(layout, plan)
    ensures plan.bottom < plan.laneBase
    ensures |layout.nodes| > 0 && |layout.lanes| > 0 ==>
              layout.height == plan.laneBase + |layout.lanes| * LANE_HEIGHT + PADDING
  {
  }

  /** Shorter routes take the lanes nearest the nodes. */
  lemma {:induction false} SpansInOrder(reviews: seq<Edge>, ranks: map<string, nat>, collate: (string, string) -> int)
    requires Consistent(collate)
    ensures var owner := StableSort(CompareSpans(ranks, collate), reviews);
            forall j, k :: 0 <= j < k < |owner| ==> Span(ranks, owner[j]) <= Span(ranks, owner[k])
  {
    var cmp := CompareSpans(ranks, collate);
    var owner := StableSort(cmp, reviews);
    CompareSpansConsistent(ranks, collate);
    SortIsOrdered(cmp, reviews);
    forall j, k | 0 <= j < k < |owner| ensures Span(ranks, owner[j]) <= Span(ranks, owner[k]) {
      assert Placed(cmp, reviews, owner[j], owner[k]);
    }
  }

  lemma CompareSpansConsistent(ranks: map<string, nat>, collate: (string, string) -> int)
    requires Consistent(collate)
    ensures Consistent(CompareSpans(ranks, collate))
  {
    var cmp := CompareSpans(ranks, collate);
    assert forall a: Edge, b: Edge :: cmp(a, b) == SpanOrder(ranks, collate, a, b);
    forall a: Edge ensures cmp(a, a) == 0 {
      assert collate(ConditionText(a), ConditionText(a)) == 0;
    }
    forall a: Edge, b: Edge ensures cmp(a, b) < 0 <==> cmp(b, a) > 0 {
      assert collate(ConditionText(a), ConditionText(b)) < 0 <==> collate(ConditionText(b), ConditionText(a)) > 0;
    }
    forall a: Edge, b: Edge, c: Edge | cmp(a, b) <= 0 && cmp(b, c) <= 0 ensures cmp(a, c) <= 0 {
      SpanOrderTransitive(ranks, collate, a, b, c);
    }
  }

  lemma SpanOrderTransitive(ranks: map<string, nat>, collate: (string, string) -> int, a: Edge, b: Edge, c: Edge)
    requires Consistent(collate) && SpanOrder(ranks, collate, a, b) <= 0 && SpanOrder(ranks, collate, b, c) <= 0
    ensures SpanOrder(ranks, collate, a, c) <= 0
  {
    assert Span(ranks, a) <= Span(ranks, b) <= Span(ranks, c);
    if Span(ranks, a) == Span(ranks, c) {
      var x, y, z := ConditionText(a), ConditionText(b), ConditionText(c);
      assert collate(x, y) <= 0 && collate(y, z) <= 0;
    }
  }

  // ---------------------------------------------------------------- the guard can fail

  function Collect(): Edge { Edge("step", "join", "collect", None) }

  function Decision(): Edge { Edge("step", "join", "review", None) }

  /** Four `collect` edges between two nodes of one column: the band is sized for none of them. */
  function SameColumnEdges(): seq<Edge> {
    [Collect(), Collect(), Collect(), Collect(), Decision()]
  }

  lemma NothingAdvances(a: string, b: string)
    ensures !Advances(SameColumnEdges(), a, b)
  {
    var edges := SameColumnEdges();
    assert forall i :: 0 <= i < |edges| ==> edges[i].kind == "collect" || edges[i].kind == "review";
    assert !Continued(edges, "join", b);
    hide Finish;
  }

  lemma RankWithoutPredecessors(g: set<(string, string)>, v: string, r: nat)
    requires g == {} && (AcyclicAbove(g, v) ==> LongestAt(g, v, r))
    ensures r == 0
  {
    forall u ensures !OnCycle(g, u) {
    }
  }

  lemma {:induction false} SameColumnRanks(ranks: map<string, nat>)
    requires RanksRight(["step", "join"], SameColumnEdges(), ranks)
    ensures "step" in ranks && "join" in ranks && ranks["step"] == 0 && ranks["join"] == 0
  {
    var ids := ["step", "join"];
    var g := Precedence(ids, SameColumnEdges());
    forall a, b ensures (a, b) !in g {
      NothingAdvances(a, b);
    }
    assert g == {};
    assert ids[0] in ids && ids[1] in ids;
    hide LongestAt, AcyclicAbove, Acyclic, Precedence;
    RankWithoutPredecessors(g, ids[0], ranks[ids[0]]);
    RankWithoutPredecessors(g, ids[1], ranks[ids[1]]);
  }

  lemma SameColumnCounts(ids: seq<string>, ranks: map<string, nat>, valid: seq<Edge>, reviews: seq<Edge>)
    requires "step" in ids && "join" in ids && "step" in ranks && "join" in ranks && ranks["step"] == ranks["join"]
    requires valid == Selected(SameColumnEdges(), KnownEdge(ids), 5)
    ensures valid == SameColumnEdges()
    ensures Count(valid, CountedBack(ranks), |valid|) == 0
    ensures var drawn := Selected(valid, Drawn(reviews), |valid|); Count(drawn, Backward(ranks), |drawn|) == 4
  {
    var all := SameColumnEdges();
    var c, d := Collect(), Decision();
    var p := KnownEdge(ids);
    assert p(c) && p(d);
    assert Selected(all, p, 1) == [c];
    assert Selected(all, p, 2) == [c, c];
    assert Selected(all, p, 3) == [c, c, c];
    assert Selected(all, p, 4) == [c, c, c, c];
    assert valid == all;
    var q := Drawn(reviews);
    assert q(c) && !q(d);
    assert Selected(all, q, 1) == [c];
    assert Selected(all, q, 2) == [c, c];
    assert Selected(all, q, 3) == [c, c, c];
    assert Selected(all, q, 4) == [c, c, c, c];
    assert Selected(all, q, 5) == [c, c, c, c];
    var r := CountedBack(ranks);
    assert !r(c) && !r(d);
    assert Count(all, r, 2) == 0 && Count(all, r, 4) == 0;
    var drawn, b := [c, c, c, c], Backward(ranks);
    assert b(c) && Count(drawn, b, 2) == 2;
  }

  /** On that input some channel does run into the swim-lanes. */
  lemma ChannelsCanReachLanes(collate: (string, string) -> int, plan: Plan, layout: Layout)
    requires IsLayout([Node("step", "activity"), Node("join", "parallel")], SameColumnEdges(), collate, plan, layout)
    ensures exists k ::
              0 <= k < |layout.edges| && layout.edges[k].route.Channel? && layout.edges[k].route.y >= plan.laneBase
  {
    var nodes := [Node("step", "activity"), Node("join", "parallel")];
    ChannelsAboveLanes(collate, plan, layout);
    SameColumnPlan(collate, plan);
    assert plan.backEdges == 0 by { hide Planned, OnPlan, Checkpoints, EdgesDrawn, Sized; }
    hide *;
  }

  lemma SameColumnPlan(collate: (string, string) -> int, plan: Plan)
    requires Planned([Node("step", "activity"), Node("join", "parallel")], SameColumnEdges(), collate, plan)
    ensures UsedChannels(plan) == 4 && Count(plan.valid, CountedBack(plan.ranks), |plan.valid|) == 0
  {
    hide RowsRight, RanksRight, NodeRanks;
    assert plan.ids == ["step", "join"];
    assert plan.ids[0] == "step" && plan.ids[1] == "join";
    SelectedAll(plan.ids);
    SameColumnRanks(plan.ranks);
    SameColumnCounts(plan.ids, plan.ranks, plan.valid, plan.reviews);
  }

  lemma SelectedAll(ids: seq<string>)
    requires "step" in ids && "join" in ids
    ensures Selected(SameColumnEdges(), KnownEdge(ids), 5) == SameColumnEdges()
  {
    SameColumnCounts(ids, map["step" := 0, "join" := 0], Selected(SameColumnEdges(), KnownEdge(ids), 5), []);
  }
}
