/**
 The whole layout: nodes on a rank/row grid, review decisions on swim-lanes below the deepest row,
 and back-edges in a band of channels between the two.
 */
module TopologyLayout {
  import opened Prelude
  import opened StableSorting
  import opened TopologyPrecedence
  import opened TopologyRank
  import opened TopologyLanes
  import opened TopologyRows

  const NODE_WIDTH := 168
  const NODE_HEIGHT := 46
  const LANE_HEIGHT := 30
  const GAP := 56
  const NODE_Y := 24
  const ROW_GAP := 24
  const ROW_PITCH := NODE_HEIGHT + ROW_GAP
  const LANE_GAP := 30
  const PADDING := 24
  const COLLECT_CHANNEL_GAP := 8
  const COLLECT_BAND_PAD := 12

  datatype Node = Node(id: string, kind: string)

  datatype PositionedNode = PositionedNode(id: string, kind: string, rank: nat, row: nat, x: int, y: int,
                                           checkpoint: bool)

  /** How an edge is drawn; `Channel` and `SwimLane` carry the height of their horizontal stretch. */
  datatype Route = Spine | Detour | CrossRow | Channel(y: int) | SwimLane(y: int)

  datatype PositionedEdge = PositionedEdge(source: string, target: string, kind: string, condition: Option<string>,
                                           route: Route)

  datatype ReviewLane = ReviewLane(condition: Option<string>, y: int)

  datatype Layout = Layout(nodes: seq<PositionedNode>, edges: seq<PositionedEdge>, lanes: seq<ReviewLane>, width: int,
                           height: int)

  /** Those of the first `n` edges that satisfy `p`, in order. */
  function Selected(s: seq<Edge>, p: Edge -> bool, n: nat): (r: seq<Edge>)
    requires n <= |s|
    ensures forall x :: x in r <==> x in s[..n] && p(x)
  {
    if n == 0 then []
    else
      assert s[..n] == s[..n - 1] + [s[n - 1]];
      if p(s[n - 1]) then Selected(s, p, n - 1) + [s[n - 1]] else Selected(s, p, n - 1)
  }

  lemma SelectedStep(s: seq<Edge>, p: Edge -> bool, n: nat)
    requires n < |s|
    ensures Selected(s, p, n + 1) == if p(s[n]) then Selected(s, p, n) + [s[n]] else Selected(s, p, n)
  {
  }

  /** How many of the first `n` edges satisfy `p`. */
  function Count(s: seq<Edge>, p: Edge -> bool, n: nat): (r: nat)
    requires n <= |s|
    ensures r <= n
  {
    if n == 0 then 0 else Count(s, p, n - 1) + if p(s[n - 1]) then 1 else 0
  }

  lemma {:induction false} CountAppend(s: seq<Edge>, x: Edge, p: Edge -> bool, n: nat)
    requires n <= |s|
    ensures Count(s + [x], p, n) == Count(s, p, n)
  {
    if n > 0 { CountAppend(s, x, p, n - 1); }
  }

  lemma CountStep(s: seq<Edge>, p: Edge -> bool, n: nat)
    requires n < |s|
    ensures Count(s, p, n + 1) == Count(s, p, n) + if p(s[n]) then 1 else 0
  {
  }

  lemma CountSnoc(s: seq<Edge>, x: Edge, p: Edge -> bool)
    ensures Count(s + [x], p, |s + [x]|) == Count(s, p, |s|) + if p(x) then 1 else 0
  {
    CountAppend(s, x, p, |s|);
  }

  lemma {:induction false} CountGrows(s: seq<Edge>, p: Edge -> bool, i: nat, k: nat)
    requires i < k <= |s| && p(s[i])
    ensures Count(s, p, i) < Count(s, p, k)
    decreases k
  {
    if i < k - 1 { CountGrows(s, p, i, k - 1); }
  }

  // ---------------------------------------------------------------- nodes

  function RowY(row: nat): int {
    NODE_Y + row * ROW_PITCH
  }

  function Ids(nodes: seq<Node>): (r: seq<string>)
    ensures |r| == |nodes| && forall i :: 0 <= i < |nodes| ==> r[i] == nodes[i].id
  {
    seq(|nodes|, i requires 0 <= i < |nodes| => nodes[i].id)
  }

  function Place(node: Node, ranks: map<string, nat>, rows: map<string, nat>,
                 reviewSources: set<string>): PositionedNode
    requires node.id in ranks && node.id in rows
  {
    var rank, row := ranks[node.id], rows[node.id];
    PositionedNode(node.id, node.kind, rank, row, PADDING + rank * (NODE_WIDTH + GAP), RowY(row),
                   node.id in reviewSources)
  }

  function MaxOf(values: seq<nat>): (r: nat)
    ensures forall v :: v in values ==> v <= r
    ensures r == 0 || r in values
  {
    if values == [] then 0
    else
      var front, last := MaxOf(values[..|values| - 1]), values[|values| - 1];
      assert values == values[..|values| - 1] + [last];
      if front < last then last else front
  }

  function RowsOf(placed: seq<PositionedNode>): (r: seq<nat>)
    ensures |r| == |placed| && forall i :: 0 <= i < |r| ==> r[i] == placed[i].row
  {
    seq(|placed|, i requires 0 <= i < |placed| => placed[i].row)
  }

  function RanksOf(placed: seq<PositionedNode>): (r: seq<nat>)
    ensures |r| == |placed| && forall i :: 0 <= i < |r| ==> r[i] == placed[i].rank
  {
    seq(|placed|, i requires 0 <= i < |placed| => placed[i].rank)
  }

  /** The boxes of the two nodes share an interior point. */
  predicate Overlap(a: PositionedNode, b: PositionedNode) {
    && a.x < b.x + NODE_WIDTH && b.x < a.x + NODE_WIDTH
    && a.y < b.y + NODE_HEIGHT && b.y < a.y + NODE_HEIGHT
  }

  predicate OnGrid(n: PositionedNode) {
    n.x == PADDING + n.rank * (NODE_WIDTH + GAP) && n.y == RowY(n.row)
  }

  /** On the grid, two boxes overlap exactly when they are the same cell. */
  lemma OverlapIsSameCell(a: PositionedNode, b: PositionedNode)
    requires OnGrid(a) && OnGrid(b)
    ensures Overlap(a, b) <==> a.rank == b.rank && a.row == b.row
  {
    if a.rank < b.rank {
      assert a.rank * 224 + 224 <= b.rank * 224;
    } else if b.rank < a.rank {
      assert b.rank * 224 + 224 <= a.rank * 224;
    }
    if a.row < b.row {
      assert a.row * 70 + 70 <= b.row * 70;
    } else if b.row < a.row {
      assert b.row * 70 + 70 <= a.row * 70;
    }
  }

  /** The nodes are the input's, on the grid, at their column and row. */
  ghost predicate OnPlan(nodes: seq<Node>, placed: seq<PositionedNode>, ranks: map<string, nat>, rows: map<string,
                         nat>) {
    && |placed| == |nodes|
    && (forall i :: 0 <= i < |nodes| ==>
          && OnGrid(placed[i]) && placed[i].id == nodes[i].id && placed[i].kind == nodes[i].kind
          && placed[i].id in ranks && placed[i].rank == ranks[placed[i].id]
          && placed[i].id in rows && placed[i].row == rows[placed[i].id])
  }

  /** No two node boxes overlap if, and only if, the node ids are pairwise different. */
  lemma BoxesOverlapOnlyForRepeatedIds(nodes: seq<Node>, placed: seq<PositionedNode>, ranks: map<string, nat>,
                                       laneOf: map<string, nat>, collate: (string,
                                             string) -> int, rows: map<string, nat>)
    requires OnPlan(nodes, placed, ranks, rows)
    requires forall rank :: RowsMatch(Ids(nodes), ranks, laneOf, collate, rows, rank)
    ensures (forall i, j :: 0 <= i < j < |placed| ==> !Overlap(placed[i], placed[j])) <==> Distinct(Ids(nodes))
  {
    var ids := Ids(nodes);
    forall i, j | 0 <= i < j < |placed| ensures Overlap(placed[i], placed[j]) <==> ids[i] == ids[j] {
      OverlapIsSameCell(placed[i], placed[j]);
      var rank := ranks[ids[i]];
      SortedMembers(ids, ranks, laneOf, collate, rank);
      assert RowsMatch(ids, ranks, laneOf, collate, rows, rank);
    }
  }

  // ---------------------------------------------------------------- structure edges

  /** A sequential edge that a review decision already draws is not drawn again. */
  predicate Covered(reviews: seq<Edge>, e: Edge) {
    e.kind == "sequential" && exists r :: r in reviews && r.source == e.source && r.target == e.target
  }

  predicate IsReview(e: Edge) {
    e.kind == "review"
  }

  predicate LeavesCheckpoint(reviews: seq<Edge>, e: Edge) {
    exists r :: r in reviews && r.source == e.source
  }

  function Drawn(reviews: seq<Edge>): Edge -> bool {
    (e: Edge) => !IsReview(e) && !Covered(reviews, e)
  }

  /** Drawn in the fan-in band: its target is not strictly to the right of its source. */
  function Backward(ranks: map<string, nat>): Edge -> bool {
    (e: Edge) => e.source in ranks && e.target in ranks && ranks[e.target] <= ranks[e.source]
  }

  /** What the band is sized by: structure edges whose target is strictly to the left. */
  function CountedBack(ranks: map<string, nat>): Edge -> bool {
    (e: Edge) => !IsReview(e) && e.source in ranks && e.target in ranks && ranks[e.target] < ranks[e.source]
  }

  function ChannelY(bottom: int, channel: nat): int {
    bottom + COLLECT_BAND_PAD / 2 + channel * COLLECT_CHANNEL_GAP
  }

  /** Edge `k` of the drawn ones got the route its end points call for, channels being handed out in order. */
  ghost predicate RoutedAt(drawn: seq<Edge>, edges: seq<PositionedEdge>, reviews: seq<Edge>, ranks: map<string, nat>,
                           rows: map<string, nat>, bottom: int, k: nat)
    requires k < |drawn| && k < |edges|
  {
    var e, p := drawn[k], edges[k];
    && e.source in ranks && e.target in ranks && e.source in rows && e.target in rows
    && p.source == e.source && p.target == e.target && p.condition == e.condition
    && p.kind == (if e.kind == "sequential" && LeavesCheckpoint(reviews, e) then "fallthrough" else e.kind)
    && p.route == (if Backward(ranks)(e) then Channel(ChannelY(bottom, Count(drawn, Backward(ranks), k)))
                   else if rows[e.source] != rows[e.target] then CrossRow
                   else if ranks[e.target] == ranks[e.source] + 1 then Spine else Detour)
  }

  ghost predicate Routed(drawn: seq<Edge>, edges: seq<PositionedEdge>, reviews: seq<Edge>, ranks: map<string, nat>,
                         rows: map<string, nat>, bottom: int) {
    |edges| == |drawn| && forall k: nat :: k < |drawn| ==> RoutedAt(drawn, edges, reviews, ranks, rows, bottom, k)
  }

  lemma RoutedOneMore(drawn: seq<Edge>, edges: seq<PositionedEdge>, reviews: seq<Edge>, ranks: map<string, nat>,
                      rows: map<string, nat>, bottom: int, e: Edge, p: PositionedEdge)
    requires Routed(drawn, edges, reviews, ranks, rows, bottom)
    requires RoutedAt(drawn + [e], edges + [p], reviews, ranks, rows, bottom, |drawn|)
    ensures Routed(drawn + [e], edges + [p], reviews, ranks, rows, bottom)
  {
    forall k: nat | k < |drawn| ensures RoutedAt(drawn + [e], edges + [p], reviews, ranks, rows, bottom, k) {
      assert RoutedAt(drawn, edges, reviews, ranks, rows, bottom, k);
      CountAppend(drawn, e, Backward(ranks), k);
    }
  }

  /** One drawn structure edge; a back-edge takes the next channel of the band. */
  method RouteOne(e: Edge, ghost drawn: seq<Edge>, ghost edges: seq<PositionedEdge>, reviews: seq<Edge>,
                  ranks: map<string, nat>,
                  rows: map<string, nat>, bottom: int, channel: nat)
    returns (p: PositionedEdge, next: nat)
    requires e.source in ranks && e.target in ranks && e.source in rows && e.target in rows
    requires |edges| == |drawn| && channel == Count(drawn, Backward(ranks), |drawn|)
    ensures RoutedAt(drawn + [e], edges + [p], reviews, ranks, rows, bottom, |drawn|)
    ensures next == Count(drawn + [e], Backward(ranks), |drawn| + 1)
  {
    var kind := if LeavesCheckpoint(reviews, e) && e.kind == "sequential" then "fallthrough" else e.kind;
    var sameRow := rows[e.source] == rows[e.target];
    var route;
    next := channel;
    if sameRow && ranks[e.target] == ranks[e.source] + 1 {
      route := Spine;
    } else if ranks[e.target] > ranks[e.source] {
      route := if sameRow then Detour else CrossRow;
    } else {
      route := Channel(bottom + COLLECT_BAND_PAD / 2 + channel * COLLECT_CHANNEL_GAP);
      next := channel + 1;
    }
    p := PositionedEdge(e.source, e.target, kind, e.condition, route);
    CountAppend(drawn, e, Backward(ranks), |drawn|);
  }

  method RouteStructure(valid: seq<Edge>, reviews: seq<Edge>, ranks: map<string, nat>, rows: map<string, nat>,
                        bottom: int)
    returns (edges: seq<PositionedEdge>)
    requires forall e :: e in valid ==> e.source in ranks && e.target in ranks && e.source in rows && e.target in rows
    ensures Routed(Selected(valid, Drawn(reviews), |valid|), edges, reviews, ranks, rows, bottom)
  {
    edges := [];
    var backChannel := 0;
    ghost var drawn: seq<Edge> := [];
    for i := 0 to |valid|
      invariant drawn == Selected(valid, Drawn(reviews), i) && |edges| == |drawn|
      invariant Routed(drawn, edges, reviews, ranks, rows, bottom)
      invariant backChannel == Count(drawn, Backward(ranks), |drawn|)
    {
      hide Routed, RoutedAt, Count, Selected;
      var e := valid[i];
      SelectedStep(valid, Drawn(reviews), i);
      if e.kind != "review" && !Covered(reviews, e) {
        var p;
        p, backChannel := RouteOne(e, drawn, edges, reviews, ranks, rows, bottom, backChannel);
        RoutedOneMore(drawn, edges, reviews, ranks, rows, bottom, e, p);
        drawn, edges := drawn + [e], edges + [p];
      }
    }
  }

  /** The last of the edges satisfying `p`. */
  lemma {:induction false} LastCounted(s: seq<Edge>, p: Edge -> bool, n: nat) returns (k: nat)
    requires n <= |s| && Count(s, p, n) > 0
    ensures k < n && p(s[k]) && Count(s, p, k) == Count(s, p, n) - 1
  {
    k := n - 1;
    if !p(s[k]) { k := LastCounted(s, p, k); }
  }

  function Band(counted: nat): nat {
    if counted > 0 then COLLECT_BAND_PAD + counted * COLLECT_CHANNEL_GAP else 0
  }

  /** The last of `used` channels runs less than `limit` pixels below a band sized for `counted` of them. */
  predicate BandHolds(used: nat, counted: nat, limit: nat) {
    used == 0 || COLLECT_BAND_PAD / 2 + (used - 1) * COLLECT_CHANNEL_GAP < Band(counted) + limit
  }

  lemma ChannelOf(drawn: seq<Edge>, edges: seq<PositionedEdge>, reviews: seq<Edge>, ranks: map<string, nat>,
                  rows: map<string, nat>, bottom: int, k: nat)
    returns (c: nat)
    requires Routed(drawn, edges, reviews, ranks, rows, bottom) && k < |edges| && edges[k].route.Channel?
    ensures edges[k].route.y == ChannelY(bottom, c) && c < Count(drawn, Backward(ranks), |drawn|)
    ensures c == Count(drawn, Backward(ranks), k) && k < |drawn| && Backward(ranks)(drawn[k])
  {
    assert RoutedAt(drawn, edges, reviews, ranks, rows, bottom, k);
    c := Count(drawn, Backward(ranks), k);
    CountGrows(drawn, Backward(ranks), k, |drawn|);
  }

  lemma ChannelsInOrder(bottom: int, c: nat, c': nat)
    requires c < c'
    ensures bottom < ChannelY(bottom, c) && ChannelY(bottom, c) + COLLECT_CHANNEL_GAP <= ChannelY(bottom, c')
  {
  }

  /** Channels are handed out in order, so no two back-edges share one, and all lie below every row. */
  lemma ChannelsApart(drawn: seq<Edge>, edges: seq<PositionedEdge>, reviews: seq<Edge>, ranks: map<string, nat>,
                      rows: map<string, nat>, bottom: int, j: nat, k: nat)
    requires Routed(drawn, edges, reviews, ranks, rows, bottom)
    requires j < k < |edges| && edges[j].route.Channel? && edges[k].route.Channel?
    ensures bottom < edges[j].route.y && edges[j].route.y + COLLECT_CHANNEL_GAP <= edges[k].route.y
  {
    var c := ChannelOf(drawn, edges, reviews, ranks, rows, bottom, j);
    var c' := ChannelOf(drawn, edges, reviews, ranks, rows, bottom, k);
    hide *;
    CountGrows(drawn, Backward(ranks), j, k);
    ChannelsInOrder(bottom, c, c');
  }

  /** Every back-edge runs above `bottom` plus the band plus `limit` exactly when the band holds them all. */
  lemma ChannelsInBand(drawn: seq<Edge>, edges: seq<PositionedEdge>, reviews: seq<Edge>, ranks: map<string, nat>,
                       rows: map<string, nat>, bottom: int, counted: nat, limit: nat)
    requires Routed(drawn, edges, reviews, ranks, rows, bottom)
    ensures (forall k :: 0 <= k < |edges| && edges[k].route.Channel? ==>
               edges[k].route.y < bottom + Band(counted) + limit)
            <==> BandHolds(Count(drawn, Backward(ranks), |drawn|), counted, limit)
  {
    var used := Count(drawn, Backward(ranks), |drawn|);
    if used > 0 {
      var k := LastCounted(drawn, Backward(ranks), |drawn|);
      assert RoutedAt(drawn, edges, reviews, ranks, rows, bottom, k);
      assert edges[k].route.y == ChannelY(bottom, used - 1);
    }
    hide Routed, RoutedAt, Count, Backward;
    forall k: nat | k < |edges| && edges[k].route.Channel?
      ensures used > 0 && edges[k].route.y <= ChannelY(bottom, used - 1)
    {
      var c := ChannelOf(drawn, edges, reviews, ranks, rows, bottom, k);
    }
  }

  /** With 30 pixels between the band and the first swim-lane, the condition in terms of the two counts. */
  lemma BandHoldsMeans(used: nat, counted: nat)
    ensures BandHolds(used, counted, LANE_GAP) <==> used <= if counted > 0 then counted + 5 else 3
  {
  }

  // ---------------------------------------------------------------- review swim-lanes

  function Span(ranks: map<string, nat>, e: Edge): nat {
    var a, b := if e.target in ranks then ranks[e.target] else 0, if e.source in ranks then ranks[e.source] else 0;
    if a < b then b - a else a - b
  }

  function ConditionText(e: Edge): string {
    if e.condition.Some? then e.condition.value else ""
  }

  /** Shorter routes take the lanes nearest the nodes; ties break on the decision's name. */
  function CompareSpans(ranks: map<string, nat>, collate: (string, string) -> int): (Edge, Edge) -> int {
    (a: Edge, b: Edge) => SpanOrder(ranks, collate, a, b)
  }

  function SpanOrder(ranks: map<string, nat>, collate: (string, string) -> int, a: Edge, b: Edge): int {
    if Span(ranks, a) != Span(ranks, b) then Span(ranks, a) - Span(ranks, b)
    else collate(ConditionText(a), ConditionText(b))
  }

  /** The `k`-th decision, shortest first, owns the `k`-th lane. */
  ghost predicate LanesMatch(reviews: seq<Edge>, ranks: map<string, nat>, collate: (string, string) -> int,
                             laneBase: int,
                             edges: seq<PositionedEdge>, lanes: seq<ReviewLane>) {
    var ordered := StableSort(CompareSpans(ranks, collate), reviews);
    && |edges| == |lanes| == |ordered|
    && (forall k :: 0 <= k < |ordered| ==>
          && lanes[k] == ReviewLane(ordered[k].condition, laneBase + k * LANE_HEIGHT)
          && edges[k] == PositionedEdge(ordered[k].source, ordered[k].target, ordered[k].kind, ordered[k].condition,
                                        SwimLane(laneBase + k * LANE_HEIGHT)))
  }

  method DrawReviews(reviews: seq<Edge>, ranks: map<string, nat>, collate: (string, string) -> int, laneBase: int)
    returns (edges: seq<PositionedEdge>, lanes: seq<ReviewLane>)
    ensures LanesMatch(reviews, ranks, collate, laneBase, edges, lanes)
  {
    var ordered := StableSort(CompareSpans(ranks, collate), reviews);
    edges, lanes := [], [];
    for k := 0 to |ordered|
      invariant |edges| == |lanes| == k
      invariant forall j :: 0 <= j < k ==>
          && lanes[j] == ReviewLane(ordered[j].condition, laneBase + j * LANE_HEIGHT)
          && edges[j] == PositionedEdge(ordered[j].source, ordered[j].target, ordered[j].kind, ordered[j].condition,
                                        SwimLane(laneBase + j * LANE_HEIGHT))
    {
      var e, y := ordered[k], laneBase + k * LANE_HEIGHT;
      lanes := lanes + [ReviewLane(e.condition, y)];
      edges := edges + [PositionedEdge(e.source, e.target, e.kind, e.condition, SwimLane(y))];
    }
  }

  // ---------------------------------------------------------------- the whole layout

  /** What the source computes on the way: its local maps, and the y-coordinates everything hangs from. */
  datatype Plan = Plan(ids: seq<string>, valid: seq<Edge>, reviews: seq<Edge>, ranks: map<string, nat>,
                       laneOf: map<string, nat>,
                       rows: map<string, nat>, bottom: int, backEdges: nat, laneBase: int)

  function KnownEdge(ids: seq<string>): Edge -> bool {
    (e: Edge) => Known(ids, e)
  }

  function ReviewEdge(): Edge -> bool {
    (e: Edge) => IsReview(e)
  }

  /** The relevant input, the columns, the lanes and the rows are right. */
  ghost predicate Planned(nodes: seq<Node>, rawEdges: seq<Edge>, collate: (string, string) -> int, plan: Plan) {
    && plan.ids == Ids(nodes)
    && plan.valid == Selected(rawEdges, KnownEdge(plan.ids), |rawEdges|)
    && plan.reviews == Selected(plan.valid, ReviewEdge(), |plan.valid|)
    && RanksRight(plan.ids, plan.valid, plan.ranks) && plan.ranks == NodeRanks(plan.ids, Predecessors(plan.valid))
    && LanesRight(plan.valid, plan.laneOf)
    && RowsRight(plan.ids, plan.ranks, plan.laneOf, collate, plan.rows)
  }

  /** `bottom` is the lower edge of the deepest row, and the lanes start below the band sized for `backEdges`. */
  ghost predicate Measured(placed: seq<PositionedNode>, plan: Plan) {
    && plan.bottom == RowY(MaxOf(RowsOf(placed))) + NODE_HEIGHT
    && plan.backEdges == Count(plan.valid, CountedBack(plan.ranks), |plan.valid|)
    && plan.laneBase == plan.bottom + Band(plan.backEdges) + LANE_GAP
  }

  /** The review routes come first, one for each lane, then the structure edges. */
  ghost predicate EdgesDrawn(collate: (string, string) -> int, plan: Plan, layout: Layout) {
    && |layout.lanes| <= |layout.edges|
    && LanesMatch(plan.reviews, plan.ranks, collate, plan.laneBase, layout.edges[..|layout.lanes|], layout.lanes)
    && Routed(Selected(plan.valid, Drawn(plan.reviews), |plan.valid|), layout.edges[|layout.lanes|..], plan.reviews,
              plan.ranks, plan.rows, plan.bottom)
  }

  ghost predicate Checkpoints(placed: seq<PositionedNode>, reviews: seq<Edge>) {
    forall n :: n in placed ==> (n.checkpoint <==> exists r :: r in reviews && r.source == n.id)
  }

  ghost predicate IsLayout(nodes: seq<Node>, rawEdges: seq<Edge>, collate: (string, string) -> int, plan: Plan,
                           layout: Layout) {
    && Planned(nodes, rawEdges, collate, plan)
    && OnPlan(nodes, layout.nodes, plan.ranks, plan.rows)
    && Checkpoints(layout.nodes, plan.reviews)
    && Measured(layout.nodes, plan)
    && EdgesDrawn(collate, plan, layout)
    && Sized(layout, plan)
  }

  ghost predicate Sized(layout: Layout, plan: Plan) {
    var n := |layout.nodes|;
    var maxRank := MaxOf(RanksOf(layout.nodes));
    && layout.width == (if n > 0 then PADDING * 2 + (maxRank + 1) * NODE_WIDTH + maxRank * GAP else 0)
    && layout.height == (if n > 0 then ContentBottom(layout, plan) + PADDING else 0)
  }

  function ContentBottom(layout: Layout, plan: Plan): int {
    if |layout.lanes| > 0 then plan.laneBase + |layout.lanes| * LANE_HEIGHT else plan.bottom + Band(plan.backEdges)
  }

  lemma KnownEdges(nodes: seq<Node>, rawEdges: seq<Edge>, collate: (string, string) -> int, plan: Plan)
    requires Planned(nodes, rawEdges, collate, plan)
    ensures plan.ids == Ids(nodes) && forall id :: id in plan.ids ==> id in plan.ranks && id in plan.rows
    ensures forall e :: e in plan.valid ==> e.source in plan.ids && e.target in plan.ids
    ensures forall e :: e in plan.valid ==>
              e.source in plan.ranks && e.target in plan.ranks && e.source in plan.rows && e.target in plan.rows
  {
    forall e | e in plan.valid ensures e.source in plan.ids && e.target in plan.ids {
      assert KnownEdge(plan.ids)(e);
    }
  }

  lemma ValidKnown(ids: seq<string>, rawEdges: seq<Edge>)
    ensures AllKnown(ids, Selected(rawEdges, KnownEdge(ids), |rawEdges|))
  {
    forall e | e in Selected(rawEdges, KnownEdge(ids), |rawEdges|) ensures Known(ids, e) {
      assert KnownEdge(ids)(e);
    }
  }

  lemma AllRanked(ids: seq<string>, valid: seq<Edge>, ranks: map<string, nat>)
    requires RanksRight(ids, valid, ranks)
    ensures forall id :: id in ids ==> id in ranks
  {
    assert forall id :: id in ids ==> id in Elements(ids);
  }

  method PlanNodes(nodes: seq<Node>, rawEdges: seq<Edge>, collate: (string, string) -> int) returns (plan: Plan)
    ensures Planned(nodes, rawEdges, collate, plan)
  {
    var ids := Ids(nodes);
    var valid := Selected(rawEdges, KnownEdge(ids), |rawEdges|);
    ValidKnown(ids, rawEdges);
    hide AllKnown, RanksRight, LanesRight, RowsRight, NodeRanks, Predecessors, Ids, Selected;
    var reviews := Selected(valid, ReviewEdge(), |valid|);
    var ranks := RankNodes(ids, valid);
    AllRanked(ids, valid, ranks);
    var laneOf := PropagateLanes(valid);
    var rows := AssignRows(ids, ranks, laneOf, collate);
    plan := Plan(ids, valid, reviews, ranks, laneOf, rows, 0, 0, 0);
  }

  method PlaceNodes(nodes: seq<Node>, plan: Plan) returns (placed: seq<PositionedNode>)
    requires plan.ids == Ids(nodes) && forall id :: id in plan.ids ==> id in plan.ranks && id in plan.rows
    ensures OnPlan(nodes, placed, plan.ranks, plan.rows) && Checkpoints(placed, plan.reviews)
  {
    var reviewSources := set r | r in plan.reviews :: r.source;
    assert forall i :: 0 <= i < |nodes| ==> nodes[i].id == plan.ids[i];
    placed := seq(|nodes|, i requires 0 <= i < |nodes| => Place(nodes[i], plan.ranks, plan.rows, reviewSources));
  }

  method DrawEdges(collate: (string, string) -> int, plan: Plan, placed: seq<PositionedNode>) returns (layout: Layout)
    requires forall e :: e in plan.valid ==>
               e.source in plan.ranks && e.target in plan.ranks && e.source in plan.rows && e.target in plan.rows
    ensures layout.nodes == placed && EdgesDrawn(collate, plan, layout)
  {
    var routes, lanes := DrawReviews(plan.reviews, plan.ranks, collate, plan.laneBase);
    var structure := RouteStructure(plan.valid, plan.reviews, plan.ranks, plan.rows, plan.bottom);
    layout := Layout(placed, routes + structure, lanes, 0, 0);
    assert |routes| == |lanes|;
    hide Routed, LanesMatch;
    assert layout.edges[..|lanes|] == routes && layout.edges[|lanes|..] == structure;
  }

  function WithSize(layout: Layout, plan: Plan): Layout {
    var n := |layout.nodes|;
    var maxRank := MaxOf(RanksOf(layout.nodes));
    layout.(width := if n > 0 then PADDING * 2 + (maxRank + 1) * NODE_WIDTH + maxRank * GAP else 0,
            height := if n > 0 then ContentBottom(layout, plan) + PADDING else 0)
  }

  method Measure(before: Plan, placed: seq<PositionedNode>) returns (plan: Plan)
    requires forall e :: e in before.valid ==> e.source in before.ranks && e.target in before.ranks
    ensures Measured(placed, plan)
    ensures plan == before.(bottom := plan.bottom, backEdges := plan.backEdges, laneBase := plan.laneBase)
  {
    var bottom := RowY(MaxOf(RowsOf(placed))) + NODE_HEIGHT;
    var backEdges := Count(before.valid, CountedBack(before.ranks), |before.valid|);
    plan := before.(bottom := bottom, backEdges := backEdges, laneBase := bottom + Band(backEdges) + LANE_GAP);
  }

  lemma PlannedKept(nodes: seq<Node>, rawEdges: seq<Edge>, collate: (string, string) -> int, before: Plan, plan: Plan)
    requires Planned(nodes, rawEdges, collate, before)
    requires plan == before.(bottom := plan.bottom, backEdges := plan.backEdges, laneBase := plan.laneBase)
    ensures Planned(nodes, rawEdges, collate, plan)
  {
  }

  lemma Assembled(nodes: seq<Node>, rawEdges: seq<Edge>, collate: (string, string) -> int, plan: Plan, drawn: Layout)
    requires Planned(nodes, rawEdges, collate, plan) && Measured(drawn.nodes, plan) && EdgesDrawn(collate, plan, drawn)
    requires OnPlan(nodes, drawn.nodes, plan.ranks, plan.rows) && Checkpoints(drawn.nodes, plan.reviews)
    ensures IsLayout(nodes, rawEdges, collate, plan, WithSize(drawn, plan))
  {
    hide Planned, OnPlan, Checkpoints, Measured, Routed, LanesMatch;
  }

  method LayoutTopology(nodes: seq<Node>, rawEdges: seq<Edge>, collate: (string, string) -> int)
    returns (layout: Layout, plan: Plan)
    ensures IsLayout(nodes, rawEdges, collate, plan, layout)
  {
    hide *;
    var before := PlanNodes(nodes, rawEdges, collate);
    KnownEdges(nodes, rawEdges, collate, before);
    var placed := PlaceNodes(nodes, before);
    plan := Measure(before, placed);
    PlannedKept(nodes, rawEdges, collate, before, plan);
    layout := DrawEdges(collate, plan, placed);
    Assembled(nodes, rawEdges, collate, plan, layout);
    layout := WithSize(layout, plan);
  }
}
