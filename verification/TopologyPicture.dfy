/**
 The finished picture against the input graph alone: which edges it shows and how, which nodes are
 checkpoints, and where the boxes, lanes and borders come to lie.
 */
module TopologyPicture {
  import opened Prelude
  import opened Graphs
  import opened StableSorting
  import opened TopologyPrecedence
  import opened TopologyRank
  import opened TopologyLanes
  import opened TopologyRows
  import opened TopologyLayout
  import opened TopologyGeometry

  // ---------------------------------------------------------------- every edge is shown

  /** An edge as it is drawn. */
  datatype Tie = Tie(source: string, target: string, kind: string, condition: Option<string>)

  /** Both ends are nodes of the input. */
  predicate Joined(nodes: seq<Node>, e: Edge) {
    e.source in Ids(nodes) && e.target in Ids(nodes)
  }

  /** A review decision of the input leads from `source` to `target`. */
  predicate Decides(rawEdges: seq<Edge>, source: string, target: string) {
    exists r :: r in rawEdges && r.kind == "review" && r.source == source && r.target == target
  }

  /** Some review decision of the input leaves the node for another node of the input. */
  predicate Checkpoint(nodes: seq<Node>, rawEdges: seq<Edge>, id: string) {
    exists r :: r in rawEdges && r.kind == "review" && r.source == id && Joined(nodes, r)
  }

  /** The edge belongs in the picture: a sequential one not if a decision already leads the same way. */
  predicate Belongs(nodes: seq<Node>, rawEdges: seq<Edge>, e: Edge) {
    Joined(nodes, e) && !(e.kind == "sequential" && Decides(rawEdges, e.source, e.target))
  }

  /** How it is drawn: leaving a checkpoint, a sequential edge is only the fall-through. */
  function DrawnAs(nodes: seq<Node>, rawEdges: seq<Edge>, e: Edge): Tie {
    Tie(e.source, e.target,
        if e.kind == "sequential" && Checkpoint(nodes, rawEdges, e.source) then "fallthrough" else e.kind, e.condition)
  }

  /** What the first `n` edges of the input contribute to the picture, with multiplicity. */
  ghost function Wanted(nodes: seq<Node>, rawEdges: seq<Edge>, n: nat): multiset<Tie>
    requires n <= |rawEdges|
  {
    if n == 0 then multiset{}
    else
      var e := rawEdges[n - 1];
      Wanted(nodes, rawEdges, n - 1)
      + if Belongs(nodes, rawEdges, e) then multiset{DrawnAs(nodes, rawEdges, e)} else multiset{}
  }

  ghost function Shown(edges: seq<PositionedEdge>): multiset<Tie> {
    if edges == [] then multiset{}
    else
      var n := |edges| - 1;
      Shown(edges[..n]) + multiset{EdgeTie(edges[n])}
  }

  function EdgeTie(p: PositionedEdge): Tie {
    Tie(p.source, p.target, p.kind, p.condition)
  }

  lemma ShownSnoc(edges: seq<PositionedEdge>, p: PositionedEdge)
    ensures Shown(edges + [p]) == Shown(edges) + multiset{EdgeTie(p)}
  {
    assert (edges + [p])[..|edges|] == edges;
  }

  lemma {:induction false} ShownConcat(a: seq<PositionedEdge>, b: seq<PositionedEdge>)
    ensures Shown(a + b) == Shown(a) + Shown(b)
    decreases |b|
  {
    if b == [] {
      assert a + b == a;
    } else {
      var n := |b| - 1;
      assert (a + b)[..|a + b| - 1] == a + b[..n];
      ShownConcat(a, b[..n]);
    }
  }

  /** How an edge is drawn, told from the decisions the layout goes by. */
  function TieOf(reviews: seq<Edge>, e: Edge): Tie {
    Tie(e.source, e.target, if e.kind == "sequential" && LeavesCheckpoint(reviews, e) then "fallthrough" else e.kind,
        e.condition)
  }

  ghost function TiesOf(reviews: seq<Edge>, s: seq<Edge>): multiset<Tie> {
    if s == [] then multiset{} else TiesOf(reviews, s[..|s| - 1]) + multiset{TieOf(reviews, s[|s| - 1])}
  }

  lemma TiesSnoc(reviews: seq<Edge>, s: seq<Edge>, e: Edge)
    ensures TiesOf(reviews, s + [e]) == TiesOf(reviews, s) + multiset{TieOf(reviews, e)}
  {
    assert (s + [e])[..|s|] == s;
  }

  lemma {:induction false} InsertShows(reviews: seq<Edge>, cmp: (Edge, Edge) -> int, s: seq<Edge>, e: Edge)
    ensures TiesOf(reviews, Insert(cmp, s, e)) == TiesOf(reviews, s) + multiset{TieOf(reviews, e)}
    decreases |s|
  {
    hide TieOf;
    if s == [] {
      assert [e] == s + [e];
      TiesSnoc(reviews, s, e);
    } else {
      var n := |s| - 1;
      TiesSnoc(reviews, s, e);
      InsertShows(reviews, cmp, s[..n], e);
      TiesSnoc(reviews, Insert(cmp, s[..n], e), s[n]);
    }
  }

  /** Drawing the edges in sorted order shows the same. */
  lemma {:induction false} SortShows(reviews: seq<Edge>, cmp: (Edge, Edge) -> int, s: seq<Edge>)
    ensures TiesOf(reviews, StableSort(cmp, s)) == TiesOf(reviews, s)
    decreases |s|
  {
    if s != [] {
      var n := |s| - 1;
      SortShows(reviews, cmp, s[..n]);
      InsertShows(reviews, cmp, StableSort(cmp, s[..n]), s[n]);
    }
  }

  lemma {:induction false} SelectedAppend(s: seq<Edge>, e: Edge, p: Edge -> bool, n: nat)
    requires n <= |s|
    ensures Selected(s + [e], p, n) == Selected(s, p, n)
  {
    if n > 0 { SelectedAppend(s, e, p, n - 1); }
  }

  lemma SelectedSnoc(s: seq<Edge>, e: Edge, p: Edge -> bool)
    ensures Selected(s + [e], p, |s + [e]|) ==
            if p(e) then Selected(s, p, |s|) + [e] else Selected(s, p, |s|)
  {
    SelectedStep(s + [e], p, |s|);
    SelectedAppend(s, e, p, |s|);
  }

  /** The known review decisions among the input's edges. */
  ghost predicate AreReviews(nodes: seq<Node>, rawEdges: seq<Edge>, reviews: seq<Edge>) {
    forall r :: r in reviews <==> r in rawEdges && r.kind == "review" && Joined(nodes, r)
  }

  lemma EdgeAgrees(nodes: seq<Node>, rawEdges: seq<Edge>, reviews: seq<Edge>, e: Edge)
    requires AreReviews(nodes, rawEdges, reviews) && Joined(nodes, e)
    ensures Belongs(nodes, rawEdges, e) <==> ReviewEdge()(e) || Drawn(reviews)(e)
    ensures !(ReviewEdge()(e) && Drawn(reviews)(e))
    ensures DrawnAs(nodes, rawEdges, e) == TieOf(reviews, e)
  {
    if Decides(rawEdges, e.source, e.target) {
      var r :| r in rawEdges && r.kind == "review" && r.source == e.source && r.target == e.target;
      assert r in reviews;
    }
    if LeavesCheckpoint(reviews, e) {
      var r :| r in reviews && r.source == e.source;
      assert r in rawEdges && Joined(nodes, r);
    }
    if Checkpoint(nodes, rawEdges, e.source) {
      var r :| r in rawEdges && r.kind == "review" && r.source == e.source && Joined(nodes, r);
      assert r in reviews;
    }
  }

  /** What `valid` contributes to the picture by the edges satisfying `p`, and by those satisfying `q`. */
  ghost function DrawnOf(reviews: seq<Edge>, p: Edge -> bool, q: Edge -> bool, valid: seq<Edge>): multiset<Tie> {
    TiesOf(reviews, Selected(valid, p, |valid|)) + TiesOf(reviews, Selected(valid, q, |valid|))
  }

  lemma SelectedTies(reviews: seq<Edge>, p: Edge -> bool, valid: seq<Edge>, e: Edge)
    ensures TiesOf(reviews, Selected(valid + [e], p, |valid + [e]|)) ==
            TiesOf(reviews, Selected(valid, p, |valid|)) + if p(e) then multiset{TieOf(reviews, e)} else multiset{}
  {
    hide *;
    SelectedSnoc(valid, e, p);
    TiesSnoc(reviews, Selected(valid, p, |valid|), e);
  }

  lemma DrawnSnoc(reviews: seq<Edge>, p: Edge -> bool, q: Edge -> bool, valid: seq<Edge>, e: Edge)
    requires !(p(e) && q(e))
    ensures DrawnOf(reviews, p, q, valid + [e]) ==
            DrawnOf(reviews, p, q, valid) + if p(e) || q(e) then multiset{TieOf(reviews, e)} else multiset{}
  {
    hide Selected, TiesOf, TieOf;
    SelectedTies(reviews, p, valid, e);
    SelectedTies(reviews, q, valid, e);
  }

  /** The review routes and the structure edges drawn are together what the input wants shown. */
  lemma {:induction false} DrawnIsWanted(nodes: seq<Node>, rawEdges: seq<Edge>, reviews: seq<Edge>, n: nat)
    requires n <= |rawEdges| && AreReviews(nodes, rawEdges, reviews)
    ensures DrawnOf(reviews, ReviewEdge(), Drawn(reviews), Selected(rawEdges, KnownEdge(Ids(nodes)), n)) ==
            Wanted(nodes, rawEdges, n)
  {
    hide *;
    if n == 0 {
      NothingDrawn(nodes, rawEdges, reviews);
    } else {
      var known, e := KnownEdge(Ids(nodes)), rawEdges[n - 1];
      DrawnIsWanted(nodes, rawEdges, reviews, n - 1);
      SelectedStep(rawEdges, known, n - 1);
      KnownIsJoined(nodes, e);
      WantedStep(nodes, rawEdges, n - 1);
      if Joined(nodes, e) {
        EdgeAgrees(nodes, rawEdges, reviews, e);
        DrawnSnoc(reviews, ReviewEdge(), Drawn(reviews), Selected(rawEdges, known, n - 1), e);
      }
    }
  }

  lemma KnownIsJoined(nodes: seq<Node>, e: Edge)
    ensures KnownEdge(Ids(nodes))(e) <==> Joined(nodes, e)
  {
  }

  lemma WantedStep(nodes: seq<Node>, rawEdges: seq<Edge>, n: nat)
    requires n < |rawEdges|
    ensures Wanted(nodes, rawEdges, n + 1) == Wanted(nodes, rawEdges, n)
            + if Belongs(nodes, rawEdges, rawEdges[n]) then multiset{DrawnAs(nodes, rawEdges, rawEdges[n])}
              else multiset{}
    ensures Belongs(nodes, rawEdges, rawEdges[n]) ==> Joined(nodes, rawEdges[n])
  {
  }

  lemma NothingDrawn(nodes: seq<Node>, rawEdges: seq<Edge>, reviews: seq<Edge>)
    ensures DrawnOf(reviews, ReviewEdge(), Drawn(reviews), Selected(rawEdges, KnownEdge(Ids(nodes)), 0)) ==
            Wanted(nodes, rawEdges, 0)
  {
  }

  lemma RoutedTie(drawn: seq<Edge>, edges: seq<PositionedEdge>, reviews: seq<Edge>,
                  ranks: map<string, nat>, rows: map<string, nat>, bottom: int, k: nat)
    requires Routed(drawn, edges, reviews, ranks, rows, bottom) && k < |drawn|
    ensures k < |edges| && EdgeTie(edges[k]) == TieOf(reviews, drawn[k])
  {
    assert RoutedAt(drawn, edges, reviews, ranks, rows, bottom, k);
  }

  lemma {:induction false} RoutedShown(drawn: seq<Edge>, edges: seq<PositionedEdge>, reviews: seq<Edge>,
                                       ranks: map<string, nat>, rows: map<string, nat>, bottom: int, n: nat)
    requires Routed(drawn, edges, reviews, ranks, rows, bottom) && n <= |drawn|
    ensures Shown(edges[..n]) == TiesOf(reviews, drawn[..n])
  {
    if n > 0 {
      RoutedShown(drawn, edges, reviews, ranks, rows, bottom, n - 1);
      RoutedTie(drawn, edges, reviews, ranks, rows, bottom, n - 1);
      hide *;
      ShownSnoc(edges[..n - 1], edges[n - 1]);
      TakeOneMore(edges, n - 1);
      TakeOneMore(drawn, n - 1);
      TiesSnoc(reviews, drawn[..n - 1], drawn[n - 1]);
    } else {
      assert edges[..0] == [] && drawn[..0] == [];
    }
  }

  lemma {:induction false} LanesShown(reviews: seq<Edge>, ordered: seq<Edge>, edges: seq<PositionedEdge>, n: nat)
    requires |edges| == |ordered| && n <= |edges|
    requires forall k :: 0 <= k < |ordered| ==>
               && ordered[k].kind == "review" && edges[k].source == ordered[k].source
               && edges[k].target == ordered[k].target && edges[k].kind == ordered[k].kind
               && edges[k].condition == ordered[k].condition
    ensures Shown(edges[..n]) == TiesOf(reviews, ordered[..n])
  {
    if n > 0 {
      LanesShown(reviews, ordered, edges, n - 1);
      assert EdgeTie(edges[n - 1]) == TieOf(reviews, ordered[n - 1]);
      hide *;
      ShownSnoc(edges[..n - 1], edges[n - 1]);
      TakeOneMore(edges, n - 1);
      TakeOneMore(ordered, n - 1);
      TiesSnoc(reviews, ordered[..n - 1], ordered[n - 1]);
    }
  }

  lemma ReviewsOfInput(nodes: seq<Node>, rawEdges: seq<Edge>, collate: (string, string) -> int, plan: Plan)
    requires Planned(nodes, rawEdges, collate, plan)
    ensures AreReviews(nodes, rawEdges, plan.reviews)
  {
    TakeAll(rawEdges);
    TakeAll(plan.valid);
    forall r ensures r in plan.reviews <==> r in rawEdges && r.kind == "review" && Joined(nodes, r) {
      assert r in plan.valid <==> r in rawEdges && KnownEdge(plan.ids)(r);
      assert r in plan.reviews <==> r in plan.valid && ReviewEdge()(r);
    }
  }

  lemma LaneTies(collate: (string, string) -> int, plan: Plan, layout: Layout)
    requires EdgesDrawn(collate, plan, layout) && forall r :: r in plan.reviews ==> r.kind == "review"
    ensures Shown(layout.edges[..|layout.lanes|]) == TiesOf(plan.reviews, plan.reviews)
  {
    var ordered := StableSort(CompareSpans(plan.ranks, collate), plan.reviews);
    var edges := layout.edges[..|layout.lanes|];
    forall k | 0 <= k < |ordered| ensures ordered[k].kind == "review" {
      assert ordered[k] in multiset(ordered);
    }
    hide Routed, StableSort;
    LanesShown(plan.reviews, ordered, edges, |edges|);
    TakeAll(edges);
    TakeAll(ordered);
    SortShows(plan.reviews, CompareSpans(plan.ranks, collate), plan.reviews);
  }

  lemma StructureTies(collate: (string, string) -> int, plan: Plan, layout: Layout)
    requires EdgesDrawn(collate, plan, layout)
    ensures Shown(layout.edges[|layout.lanes|..]) ==
            TiesOf(plan.reviews, Selected(plan.valid, Drawn(plan.reviews), |plan.valid|))
  {
    var drawn, edges := Selected(plan.valid, Drawn(plan.reviews), |plan.valid|), layout.edges[|layout.lanes|..];
    hide LanesMatch;
    RoutedShown(drawn, edges, plan.reviews, plan.ranks, plan.rows, plan.bottom, |drawn|);
    assert |edges| == |drawn|;
    TakeAll(drawn);
    TakeAll(edges);
  }

  /**
   Conservation of edges, for every input: the picture shows each edge between known nodes as often as
   the input has it, with its condition, except a sequential one that a decision already draws; and a
   sequential edge that leaves a checkpoint is shown as its fall-through.
   */
  lemma EveryEdgeIsShown(nodes: seq<Node>, rawEdges: seq<Edge>, collate: (string, string) -> int, plan: Plan,
                         layout: Layout)
    requires IsLayout(nodes, rawEdges, collate, plan, layout)
    ensures Shown(layout.edges) == Wanted(nodes, rawEdges, |rawEdges|)
  {
    var m := |layout.lanes|;
    hide *;
    LayoutParts(nodes, rawEdges, collate, plan, layout);
    DrawnIsWanted(nodes, rawEdges, plan.reviews, |rawEdges|);
    LaneTies(collate, plan, layout);
    StructureTies(collate, plan, layout);
    assert layout.edges[..m] + layout.edges[m..] == layout.edges;
    ShownConcat(layout.edges[..m], layout.edges[m..]);
  }

  lemma LayoutParts(nodes: seq<Node>, rawEdges: seq<Edge>, collate: (string, string) -> int, plan: Plan,
                    layout: Layout)
    requires IsLayout(nodes, rawEdges, collate, plan, layout)
    ensures AreReviews(nodes, rawEdges, plan.reviews) && forall r :: r in plan.reviews ==> r.kind == "review"
    ensures EdgesDrawn(collate, plan, layout) && |layout.lanes| <= |layout.edges|
    ensures DrawnOf(plan.reviews, ReviewEdge(), Drawn(plan.reviews),
                    Selected(rawEdges, KnownEdge(Ids(nodes)), |rawEdges|)) ==
            TiesOf(plan.reviews, plan.reviews)
            + TiesOf(plan.reviews, Selected(plan.valid, Drawn(plan.reviews), |plan.valid|))
  {
    hide OnPlan, Checkpoints, Measured, Sized;
    ReviewsOfInput(nodes, rawEdges, collate, plan);
    hide RanksRight, LanesRight, RowsRight, NodeRanks, Predecessors, TiesOf, Selected, AreReviews;
  }

  // ---------------------------------------------------------------- boxes, routes and borders

  /** A node is marked as a checkpoint exactly when a decision of the input leaves it for a known node. */
  lemma CheckpointsAreMarked(nodes: seq<Node>, rawEdges: seq<Edge>, collate: (string, string) -> int, plan: Plan,
                             layout: Layout, n: PositionedNode)
    requires IsLayout(nodes, rawEdges, collate, plan, layout) && n in layout.nodes
    ensures n.checkpoint <==> Checkpoint(nodes, rawEdges, n.id)
  {
    hide OnPlan, Measured, EdgesDrawn, Sized;
    ReviewsOfInput(nodes, rawEdges, collate, plan);
    hide Planned;
    if n.checkpoint {
      var r :| r in plan.reviews && r.source == n.id;
      assert r in rawEdges && r.kind == "review" && Joined(nodes, r);
    }
    if Checkpoint(nodes, rawEdges, n.id) {
      var r :| r in rawEdges && r.kind == "review" && r.source == n.id && Joined(nodes, r);
      assert r in plan.reviews;
    }
  }

  /** A box of the picture stands where the plan puts its node. */
  lemma BoxOnPlan(nodes: seq<Node>, placed: seq<PositionedNode>, ranks: map<string, nat>, rows: map<string, nat>,
                  n: PositionedNode)
    requires OnPlan(nodes, placed, ranks, rows) && n in placed
    ensures n.id in ranks && n.id in rows && n.id in Ids(nodes)
    ensures n.x == PADDING + ranks[n.id] * (NODE_WIDTH + GAP) && n.y == NODE_Y + rows[n.id] * (NODE_HEIGHT + ROW_GAP)
  {
    var i :| 0 <= i < |placed| && placed[i] == n;
    assert OnGrid(placed[i]) && Ids(nodes)[i] == n.id;
  }

  /** How a structure edge runs, told from the boxes `a` and `b` at its ends. */
  predicate RunsBetween(route: Route, a: PositionedNode, b: PositionedNode) {
    if b.x <= a.x then route.Channel?
    else if a.y != b.y then route == CrossRow
    else if b.x == a.x + NODE_WIDTH + GAP then route == Spine
    else route == Detour
  }

  lemma BoxOfLayout(nodes: seq<Node>, rawEdges: seq<Edge>, collate: (string, string) -> int, plan: Plan,
                    layout: Layout, n: PositionedNode)
    requires IsLayout(nodes, rawEdges, collate, plan, layout) && n in layout.nodes
    ensures n.id in plan.ranks && n.id in plan.rows && n.id in Ids(nodes)
    ensures n.x == PADDING + plan.ranks[n.id] * (NODE_WIDTH + GAP)
    ensures n.y == NODE_Y + plan.rows[n.id] * (NODE_HEIGHT + ROW_GAP)
  {
    hide Planned, OnPlan, Checkpoints, Measured, EdgesDrawn, Sized;
    BoxOnPlan(nodes, layout.nodes, plan.ranks, plan.rows, n);
  }

  lemma RouteByPlan(nodes: seq<Node>, rawEdges: seq<Edge>, collate: (string, string) -> int, plan: Plan,
                    layout: Layout, k: nat)
    requires IsLayout(nodes, rawEdges, collate, plan, layout) && |layout.lanes| <= k < |layout.edges|
    requires layout.edges[k].source in plan.ranks && layout.edges[k].target in plan.ranks
    requires layout.edges[k].source in plan.rows && layout.edges[k].target in plan.rows
    ensures var p, ranks, rows := layout.edges[k], plan.ranks, plan.rows;
            if ranks[p.target] <= ranks[p.source] then p.route.Channel?
            else p.route == if rows[p.source] != rows[p.target] then CrossRow
              else if ranks[p.target] == ranks[p.source] + 1 then Spine else Detour
  {
    hide Planned, OnPlan, Checkpoints, Measured, Sized;
    var m := |layout.lanes|;
    var drawn, edges := DrawnEdges(plan), layout.edges[m..];
    assert Routed(drawn, edges, plan.reviews, plan.ranks, plan.rows, plan.bottom);
    hide EdgesDrawn;
    assert edges[k - m] == layout.edges[k];
    assert RoutedAt(drawn, edges, plan.reviews, plan.ranks, plan.rows, plan.bottom, k - m);
    hide Routed, Count, Selected;
  }

  /**
   After the review routes, an edge to a box further right runs straight to the next column of its row,
   takes a detour to a later column of it, or crosses rows; any other edge returns through a channel.
   */
  lemma RoutesFollowBoxes(nodes: seq<Node>, rawEdges: seq<Edge>, collate: (string, string) -> int, plan: Plan,
                          layout: Layout, k: nat, a: PositionedNode, b: PositionedNode)
    requires IsLayout(nodes, rawEdges, collate, plan, layout) && |layout.lanes| <= k < |layout.edges|
    requires a in layout.nodes && b in layout.nodes
    requires a.id == layout.edges[k].source && b.id == layout.edges[k].target
    ensures RunsBetween(layout.edges[k].route, a, b)
  {
    hide IsLayout;
    BoxOfLayout(nodes, rawEdges, collate, plan, layout, a);
    BoxOfLayout(nodes, rawEdges, collate, plan, layout, b);
    RouteByPlan(nodes, rawEdges, collate, plan, layout, k);
    ColumnsApartOnGrid(plan.ranks[a.id], plan.ranks[b.id]);
    RowsApartOnGrid(plan.rows[a.id], plan.rows[b.id]);
  }

  lemma ColumnsApartOnGrid(p: nat, q: nat)
    ensures q <= p <==> q * (NODE_WIDTH + GAP) <= p * (NODE_WIDTH + GAP)
    ensures q == p + 1 <==> q * (NODE_WIDTH + GAP) == p * (NODE_WIDTH + GAP) + NODE_WIDTH + GAP
  {
  }

  lemma RowsApartOnGrid(p: nat, q: nat)
    ensures p < q <==> p * (NODE_HEIGHT + ROW_GAP) < q * (NODE_HEIGHT + ROW_GAP)
    ensures p == q <==> p * (NODE_HEIGHT + ROW_GAP) == q * (NODE_HEIGHT + ROW_GAP)
  {
  }

  /** When the precedence has no cycle, every edge of the input but decisions and joins leads to a box further right. */
  lemma FlowGoesRight(nodes: seq<Node>, rawEdges: seq<Edge>, collate: (string, string) -> int, plan: Plan,
                      layout: Layout, e: Edge, a: PositionedNode, b: PositionedNode)
    requires IsLayout(nodes, rawEdges, collate, plan, layout) && Acyclic(Precedence(plan.ids, plan.valid))
    requires e in rawEdges && e.kind != "review" && e.kind != "collect"
    requires a in layout.nodes && b in layout.nodes && a.id == e.source && b.id == e.target
    ensures a.x + NODE_WIDTH + GAP <= b.x
  {
    BoxOnPlan(nodes, layout.nodes, plan.ranks, plan.rows, a);
    BoxOnPlan(nodes, layout.nodes, plan.ranks, plan.rows, b);
    hide OnPlan, Checkpoints, Measured, EdgesDrawn, Sized;
    KnownEdges(nodes, rawEdges, collate, plan);
    TakeAll(rawEdges);
    assert KnownEdge(plan.ids)(e) && e in plan.valid;
    hide RanksRight, LanesRight, RowsRight, NodeRanks;
    RanksTell(plan.ids, plan.valid, plan.ranks);
    assert Forward(e);
    hide Planned, Acyclic, Precedence;
    ColumnsApartOnGrid(plan.ranks[b.id], plan.ranks[a.id] + 1);
  }

  /** What collects into what, told from the input: from a join to the steps that return to it. */
  ghost function CollectGraph(nodes: seq<Node>, rawEdges: seq<Edge>): set<(string, string)> {
    set e | e in rawEdges && e.kind == "collect" && Joined(nodes, e) :: (e.target, e.source)
  }

  lemma CollectsAreJoins(nodes: seq<Node>, rawEdges: seq<Edge>, collate: (string, string) -> int, plan: Plan)
    requires Planned(nodes, rawEdges, collate, plan)
    ensures Relation(Joins(plan.valid)) == CollectGraph(nodes, rawEdges)
  {
    TakeAll(rawEdges);
    forall e ensures e in plan.valid <==> e in rawEdges && Joined(nodes, e) {
      assert e in plan.valid <==> e in rawEdges && KnownEdge(plan.ids)(e);
    }
    hide Planned, Joins;
    forall j, s ensures (j, s) in Relation(Joins(plan.valid)) <==> (j, s) in CollectGraph(nodes, rawEdges) {
      assert (j, s) in Relation(Joins(plan.valid)) <==> Has(Joins(plan.valid), j, s);
      assert Has(Joins(plan.valid), j, s) <==> Collected(plan.valid, j, s);
    }
  }

  /**
   When the precedence has no cycle, each step that ends a block, at any nesting depth, stands left of
   whatever runs after the block: `c` returns from the block to its join, `f` goes on from there, and
   `step` is what the steps inside come down to.
   */
  lemma {:induction false} BlocksEndLeftOfWhatFollows(nodes: seq<Node>, rawEdges: seq<Edge>,
                                                      collate: (string, string) -> int, plan: Plan, layout: Layout,
                                                      c: Edge, f: Edge, a: PositionedNode, b: PositionedNode)
    requires IsLayout(nodes, rawEdges, collate, plan, layout) && Acyclic(Precedence(plan.ids, plan.valid))
    requires c in rawEdges && c.kind == "collect" && Joined(nodes, c)
    requires f in rawEdges && (f.kind == "sequential" || f.kind == "conditional") && f.source == c.target
    requires a in layout.nodes && b in layout.nodes && b.id == f.target
    requires Reaches(CollectGraph(nodes, rawEdges), c.source, a.id)
    requires forall s :: (a.id, s) !in CollectGraph(nodes, rawEdges)
    ensures a.x + NODE_WIDTH + GAP <= b.x
  {
    hide IsLayout, Acyclic, Precedence, CollectGraph, Reaches;
    BoxOfLayout(nodes, rawEdges, collate, plan, layout, a);
    BoxOfLayout(nodes, rawEdges, collate, plan, layout, b);
    assert Joined(nodes, f);
    BlockEndsInPlan(nodes, rawEdges, collate, plan, layout, c, f, a.id);
    ColumnsApartOnGrid(plan.ranks[b.id], plan.ranks[a.id] + 1);
  }

  lemma BlockEndsInPlan(nodes: seq<Node>, rawEdges: seq<Edge>, collate: (string, string) -> int, plan: Plan,
                        layout: Layout, c: Edge, f: Edge, step: string)
    requires IsLayout(nodes, rawEdges, collate, plan, layout) && Acyclic(Precedence(plan.ids, plan.valid))
    requires c in rawEdges && c.kind == "collect" && Joined(nodes, c)
    requires f in rawEdges && (f.kind == "sequential" || f.kind == "conditional") && f.source == c.target
    requires step in Ids(nodes) && Joined(nodes, f) && Reaches(CollectGraph(nodes, rawEdges), c.source, step)
    requires forall s :: (step, s) !in CollectGraph(nodes, rawEdges)
    ensures step in plan.ranks && f.target in plan.ranks && plan.ranks[step] < plan.ranks[f.target]
  {
    hide *;
    InputOfPlan(nodes, rawEdges, collate, plan, layout, c);
    InputOfPlan(nodes, rawEdges, collate, plan, layout, f);
    NothingCollected(Joins(plan.valid), step);
    GoesOn(plan.valid, f);
    ColumnsFollowTheFlow(plan.ids, plan.valid, plan.ranks);
  }

  lemma NothingCollected(joins: map<string, seq<string>>, step: string)
    requires forall s :: (step, s) !in Relation(joins)
    ensures EndsBlock(joins, step)
  {
    if Listed(joins, step) != [] { ListedIsRelated(joins, step); }
  }

  lemma ListedIsRelated(joins: map<string, seq<string>>, step: string)
    requires Listed(joins, step) != []
    ensures (step, Listed(joins, step)[0]) in Relation(joins)
  {
  }

  lemma GoesOn(edges: seq<Edge>, f: Edge)
    requires f in edges && (f.kind == "sequential" || f.kind == "conditional")
    ensures Continued(edges, f.source, f.target)
  {
  }

  /** An edge between known nodes is among those the ranks are right about. */
  lemma InputOfPlan(nodes: seq<Node>, rawEdges: seq<Edge>, collate: (string, string) -> int, plan: Plan,
                    layout: Layout, e: Edge)
    requires IsLayout(nodes, rawEdges, collate, plan, layout) && Acyclic(Precedence(plan.ids, plan.valid))
    requires e in rawEdges && Joined(nodes, e)
    ensures e in plan.valid && AllKnown(plan.ids, plan.valid) && plan.ids == Ids(nodes)
    ensures plan.ranks.Keys == Elements(plan.ids) && forall id :: id in plan.ids ==> id in plan.ranks
    ensures forall a, b :: (a, b) in Precedence(plan.ids, plan.valid) ==> plan.ranks[a] < plan.ranks[b]
    ensures Relation(Joins(plan.valid)) == CollectGraph(nodes, rawEdges)
  {
    hide OnPlan, Checkpoints, Measured, EdgesDrawn, Sized;
    CollectsAreJoins(nodes, rawEdges, collate, plan);
    ValidKnown(Ids(nodes), rawEdges);
    hide Joins, CollectGraph, Relation, LanesRight, RowsRight, NodeRanks, Predecessors, Acyclic, Precedence;
    TakeAll(rawEdges);
    assert KnownEdge(plan.ids)(e);
    assert RanksRight(plan.ids, plan.valid, plan.ranks);
  }

  function Distance(a: PositionedNode, b: PositionedNode): int {
    if a.x < b.x then b.x - a.x else a.x - b.x
  }

  /**
   Of two decisions, the one whose boxes stand closer together in the picture takes the upper lane, and
   between equals the one whose name comes first.
   */
  lemma {:induction false} CloserTakesUpperLane(nodes: seq<Node>, rawEdges: seq<Edge>, collate: (string, string) -> int,
                                                plan: Plan, layout: Layout, j: nat, k: nat, boxes: seq<PositionedNode>)
    requires IsLayout(nodes, rawEdges, collate, plan, layout) && Consistent(collate)
    requires j < k < |layout.lanes| <= |layout.edges|
    requires |boxes| == 4 && forall i :: 0 <= i < 4 ==> boxes[i] in layout.nodes
    requires boxes[0].id == layout.edges[j].source && boxes[1].id == layout.edges[j].target
    requires boxes[2].id == layout.edges[k].source && boxes[3].id == layout.edges[k].target
    ensures layout.lanes[j].y < layout.lanes[k].y
    ensures Distance(boxes[0], boxes[1]) <= Distance(boxes[2], boxes[3])
    ensures Distance(boxes[0], boxes[1]) == Distance(boxes[2], boxes[3]) ==>
              collate(LaneText(layout.lanes[j]), LaneText(layout.lanes[k])) <= 0
  {
    hide IsLayout, Consistent, Distance, Span;
    forall i | 0 <= i < 4
      ensures boxes[i].id in plan.ranks && boxes[i].x == PADDING + plan.ranks[boxes[i].id] * (NODE_WIDTH + GAP)
    {
      BoxOfLayout(nodes, rawEdges, collate, plan, layout, boxes[i]);
    }
    var c, d := LanePair(nodes, rawEdges, collate, plan, layout, j, k);
    SpanIsDistance(plan.ranks, c, boxes[0], boxes[1]);
    SpanIsDistance(plan.ranks, d, boxes[2], boxes[3]);
    var p, q := Span(plan.ranks, c), Span(plan.ranks, d);
    ColumnsApartOnGrid(q, p);
    ColumnsApartOnGrid(p, q);
  }

  /** The decisions that own two lanes, in their order. */
  lemma LanePair(nodes: seq<Node>, rawEdges: seq<Edge>, collate: (string, string) -> int, plan: Plan, layout: Layout,
                 j: nat, k: nat)
    returns (c: Edge, d: Edge)
    requires IsLayout(nodes, rawEdges, collate, plan, layout) && Consistent(collate)
    requires j < k < |layout.lanes| <= |layout.edges|
    ensures layout.lanes[j].y < layout.lanes[k].y
    ensures layout.edges[j].source == c.source && layout.edges[j].target == c.target
    ensures layout.edges[k].source == d.source && layout.edges[k].target == d.target
    ensures Span(plan.ranks, c) <= Span(plan.ranks, d)
    ensures Span(plan.ranks, c) == Span(plan.ranks, d) ==>
              collate(LaneText(layout.lanes[j]), LaneText(layout.lanes[k])) <= 0
  {
    hide Planned, OnPlan, Checkpoints, Measured, Sized, EdgesDrawn, Consistent;
    var cmp := CompareSpans(plan.ranks, collate);
    var ordered := StableSort(cmp, plan.reviews);
    LaneOf(collate, plan, layout, ordered, j);
    LaneOf(collate, plan, layout, ordered, k);
    hide IsLayout, StableSort;
    c, d := ordered[j], ordered[k];
    CompareSpansConsistent(plan.ranks, collate);
    SortIsOrdered(cmp, plan.reviews);
    assert Placed(cmp, plan.reviews, c, d);
    assert cmp(c, d) == SpanOrder(plan.ranks, collate, c, d);
    hide Span, LaneText, ConditionText;
  }

  function LaneText(lane: ReviewLane): string {
    if lane.condition.Some? then lane.condition.value else ""
  }

  lemma LaneOf(collate: (string, string) -> int, plan: Plan, layout: Layout, ordered: seq<Edge>, k: nat)
    requires EdgesDrawn(collate, plan, layout) && k < |layout.lanes|
    requires ordered == StableSort(CompareSpans(plan.ranks, collate), plan.reviews)
    ensures |ordered| == |layout.lanes| <= |layout.edges| && layout.lanes[k].y == plan.laneBase + k * LANE_HEIGHT
    ensures layout.edges[k].source == ordered[k].source && layout.edges[k].target == ordered[k].target
    ensures LaneText(layout.lanes[k]) == ConditionText(ordered[k])
  {
    hide Routed, StableSort, CompareSpans;
    assert layout.edges[..|layout.lanes|][k] == layout.edges[k];
  }

  lemma SpanIsDistance(ranks: map<string, nat>, e: Edge, a: PositionedNode, b: PositionedNode)
    requires e.source == a.id && e.target == b.id && a.id in ranks && b.id in ranks
    requires a.x == PADDING + ranks[a.id] * (NODE_WIDTH + GAP) && b.x == PADDING + ranks[b.id] * (NODE_WIDTH + GAP)
    ensures Distance(a, b) == Span(ranks, e) * (NODE_WIDTH + GAP)
  {
  }

  /**
   Of two boxes of one column, the one fed by a branch edge that comes before every branch edge feeding
   the other stands above it, and so does one fed by any above one fed by none.
   */
  lemma EarlierBranchStandsAbove(nodes: seq<Node>, rawEdges: seq<Edge>, collate: (string, string) -> int, plan: Plan,
                                 layout: Layout, a: PositionedNode, b: PositionedNode, i: int)
    requires IsLayout(nodes, rawEdges, collate, plan, layout) && Consistent(collate) && Distinct(Ids(nodes))
    requires a in layout.nodes && b in layout.nodes && a.x == b.x
    requires Feeds(plan.valid, i, a.id) && forall j :: Feeds(plan.valid, j, b.id) ==> i < j
    ensures a.y < b.y
  {
    hide IsLayout, Consistent, Distinct, Feeds;
    BoxOfLayout(nodes, rawEdges, collate, plan, layout, a);
    BoxOfLayout(nodes, rawEdges, collate, plan, layout, b);
    var ids, rank := plan.ids, plan.ranks[a.id];
    LanesOfPlan(nodes, rawEdges, collate, plan, layout, a.id, b.id, i);
    ColumnsApartOnGrid(plan.ranks[a.id], plan.ranks[b.id]);
    ColumnsApartOnGrid(plan.ranks[b.id], plan.ranks[a.id]);
    hide Placed, CompareRows, RowsMatch;
    RowsFollowLanes(ids, plan.ranks, plan.laneOf, collate, plan.rows, rank, a.id, b.id);
    RowsApartOnGrid(plan.rows[a.id], plan.rows[b.id]);
  }

  lemma LanesOfPlan(nodes: seq<Node>, rawEdges: seq<Edge>, collate: (string, string) -> int, plan: Plan,
                    layout: Layout, a: string, b: string, i: int)
    requires IsLayout(nodes, rawEdges, collate, plan, layout)
    requires a in plan.ranks && Feeds(plan.valid, i, a) && forall j :: Feeds(plan.valid, j, b) ==> i < j
    ensures a != b && plan.ids == Ids(nodes) && forall id :: id in plan.ids ==> id in plan.ranks
    ensures RowsMatch(plan.ids, plan.ranks, plan.laneOf, collate, plan.rows, plan.ranks[a])
    ensures Placed(CompareRows(plan.laneOf, collate), plan.ids, a, b)
  {
    hide OnPlan, Checkpoints, Measured, EdgesDrawn, Sized, Feeds, RowsMatch;
    assert IsLane(plan.valid, a, plan.laneOf[a]) && plan.laneOf[a] <= i;
    if b in plan.laneOf { assert IsLane(plan.valid, b, plan.laneOf[b]); }
    hide RanksRight, NodeRanks, Predecessors, Selected;
  }

  /** The picture is no wider than its boxes need, and with lanes no higher than they need. */
  lemma BordersAreTight(nodes: seq<Node>, rawEdges: seq<Edge>, collate: (string, string) -> int, plan: Plan,
                        layout: Layout)
    requires IsLayout(nodes, rawEdges, collate, plan, layout) && nodes != []
    ensures exists n :: n in layout.nodes && n.x + NODE_WIDTH + PADDING == layout.width
    ensures layout.lanes != [] ==> layout.lanes[|layout.lanes| - 1].y + LANE_HEIGHT + PADDING == layout.height
    ensures exists n :: n in layout.nodes && n.y + NODE_HEIGHT == plan.bottom
  {
    hide Planned, Checkpoints;
    var last := StableSort(CompareSpans(plan.ranks, collate), plan.reviews);
    if layout.lanes != [] { LaneOf(collate, plan, layout, last, |layout.lanes| - 1); }
    hide EdgesDrawn;
    var n := WidestBox(nodes, plan, layout);
    var d := DeepestBox(nodes, plan, layout);
    hide OnPlan, Measured;
  }

  lemma WidestBox(nodes: seq<Node>, plan: Plan, layout: Layout) returns (n: PositionedNode)
    requires OnPlan(nodes, layout.nodes, plan.ranks, plan.rows) && Sized(layout, plan) && nodes != []
    ensures n in layout.nodes && n.x + NODE_WIDTH + PADDING == layout.width
  {
    var ranks := RanksOf(layout.nodes);
    var i :| 0 <= i < |ranks| && ranks[i] == MaxOf(ranks);
    n := layout.nodes[i];
    assert OnGrid(n);
  }

  lemma DeepestBox(nodes: seq<Node>, plan: Plan, layout: Layout) returns (n: PositionedNode)
    requires OnPlan(nodes, layout.nodes, plan.ranks, plan.rows) && Measured(layout.nodes, plan) && nodes != []
    ensures n in layout.nodes && n.y + NODE_HEIGHT == plan.bottom
  {
    var rows := RowsOf(layout.nodes);
    var i :| 0 <= i < |rows| && rows[i] == MaxOf(rows);
    n := layout.nodes[i];
    assert OnGrid(n);
  }
}
