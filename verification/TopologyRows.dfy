/**
 Rows of the topology view, second half: the nodes of one column stacked by lane, then by the
 locale order of their ids.
 */
module TopologyRows {
  import opened Prelude
  import opened StableSorting

  /** The ids of one column, in input order. */
  function Column(ids: seq<string>, ranks: map<string, nat>, rank: nat): (r: seq<string>)
    requires forall id :: id in ids ==> id in ranks
    ensures forall id :: id in r <==> id in ids && ranks[id] == rank
  {
    if ids == [] then []
    else
      var front, last := ids[..|ids| - 1], ids[|ids| - 1];
      assert ids == front + [last];
      Column(front, ranks, rank) + if ranks[last] == rank then [last] else []
  }

  /** A step without a lane sorts after every step with one. */
  function CompareRows(laneOf: map<string, nat>, collate: (string, string) -> int): (string, string) -> int {
    (a, b) =>
      if a in laneOf && b in laneOf then
        if laneOf[a] != laneOf[b] then laneOf[a] - laneOf[b] else collate(a, b)
      else if a in laneOf then -1
      else if b in laneOf then 1
      else collate(a, b)
  }

  lemma CompareRowsConsistent(laneOf: map<string, nat>, collate: (string, string) -> int)
    requires Consistent(collate)
    ensures Consistent(CompareRows(laneOf, collate))
  {
  }

  function SortedColumn(ids: seq<string>, ranks: map<string, nat>, laneOf: map<string, nat>,
                        collate: (string, string) -> int, rank: nat): seq<string>
    requires forall id :: id in ids ==> id in ranks
  {
    StableSort(CompareRows(laneOf, collate), Column(ids, ranks, rank))
  }

  method GroupByRank(ids: seq<string>, ranks: map<string, nat>) returns (byRank: map<nat, seq<string>>, order: seq<nat>)
    requires forall id :: id in ids ==> id in ranks
    ensures forall r :: r in order <==> r in byRank
    ensures forall r: nat :: (if r in byRank then byRank[r] else []) == Column(ids, ranks, r)
  {
    byRank, order := map[], [];
    for i := 0 to |ids|
      invariant forall r :: r in order <==> r in byRank
      invariant forall r: nat :: (if r in byRank then byRank[r] else []) == Column(ids[..i], ranks, r)
    {
      assert ids[..i + 1][..i] == ids[..i];
      var rank := ranks[ids[i]];
      if rank !in byRank { order := order + [rank]; }
      byRank := byRank[rank := (if rank in byRank then byRank[rank] else []) + [ids[i]]];
    }
    assert ids[..|ids|] == ids;
  }

  /** Every node gets the index it has in its sorted column. */
  ghost predicate RowsMatch(ids: seq<string>, ranks: map<string, nat>, laneOf: map<string, nat>,
                            collate: (string, string) -> int, rows: map<string, nat>, rank: nat)
    requires forall id :: id in ids ==> id in ranks
  {
    var t := SortedColumn(ids, ranks, laneOf, collate, rank);
    forall id :: id in t ==> id in rows && rows[id] < |t| && t[rows[id]] == id
  }

  ghost predicate RowsRight(ids: seq<string>, ranks: map<string, nat>, laneOf: map<string, nat>,
                            collate: (string, string) -> int, rows: map<string, nat>) {
    && (forall id :: id in ids ==> id in ranks && id in rows)
    && (forall rank :: RowsMatch(ids, ranks, laneOf, collate, rows, rank))
  }

  /** The nodes of one sorted column take its indices, later occurrences of an id overriding earlier ones. */
  method StackColumn(before: map<string, nat>, sorted: seq<string>) returns (rows: map<string, nat>)
    ensures forall id :: id in before && id !in sorted ==> id in rows && rows[id] == before[id]
    ensures forall id :: id in sorted ==> id in rows && rows[id] < |sorted| && sorted[rows[id]] == id
  {
    rows := before;
    for row := 0 to |sorted|
      invariant forall id :: id in before && id !in sorted ==> id in rows && rows[id] == before[id]
      invariant forall id :: id in sorted[..row] ==> id in rows && rows[id] < row && sorted[rows[id]] == id
    {
      assert sorted[..row + 1] == sorted[..row] + [sorted[row]];
      rows := rows[sorted[row] := row];
    }
    assert sorted[..|sorted|] == sorted;
  }

  method AssignRows(ids: seq<string>, ranks: map<string, nat>, laneOf: map<string, nat>,
                    collate: (string, string) -> int)
    returns (rows: map<string, nat>)
    requires forall id :: id in ids ==> id in ranks
    ensures RowsRight(ids, ranks, laneOf, collate, rows)
  {
    var byRank, order := GroupByRank(ids, ranks);
    rows := map[];
    for i := 0 to |order|
      invariant forall r :: r in order[..i] ==> RowsMatch(ids, ranks, laneOf, collate, rows, r)
    {
      var rank := order[i];
      assert order[..i + 1] == order[..i] + [rank];
      ghost var before := rows;
      rows := StackColumn(rows, StableSort(CompareRows(laneOf, collate), byRank[rank]));
      assert RowsMatch(ids, ranks, laneOf, collate, rows, rank);
      forall r | r in order[..i] && r != rank ensures RowsMatch(ids, ranks, laneOf, collate, rows, r) {
        ColumnsApart(ids, ranks, laneOf, collate, rank, r);
        assert RowsMatch(ids, ranks, laneOf, collate, before, r);
      }
    }
    assert order[..|order|] == order;
    forall r: nat ensures RowsMatch(ids, ranks, laneOf, collate, rows, r) {
      if r !in order { assert Column(ids, ranks, r) == []; }
    }
    forall id | id in ids ensures id in rows {
      SortedMembers(ids, ranks, laneOf, collate, ranks[id]);
      assert RowsMatch(ids, ranks, laneOf, collate, rows, ranks[id]);
    }
  }

  lemma SortedMembers(ids: seq<string>, ranks: map<string, nat>, laneOf: map<string, nat>,
                      collate: (string, string) -> int, rank: nat)
    requires forall id :: id in ids ==> id in ranks
    ensures forall id :: id in SortedColumn(ids, ranks, laneOf, collate, rank) <==> id in ids && ranks[id] == rank
  {
    var s, t := Column(ids, ranks, rank), SortedColumn(ids, ranks, laneOf, collate, rank);
    forall id ensures id in t <==> id in s {
      assert id in multiset(t) <==> id in multiset(s);
    }
  }

  lemma ColumnsApart(ids: seq<string>, ranks: map<string, nat>, laneOf: map<string, nat>,
                     collate: (string, string) -> int, r: nat, r': nat)
    requires (forall id :: id in ids ==> id in ranks) && r != r'
    ensures forall id :: id in SortedColumn(ids, ranks, laneOf, collate, r) ==>
              id !in SortedColumn(ids, ranks, laneOf, collate, r')
  {
    SortedMembers(ids, ranks, laneOf, collate, r);
    SortedMembers(ids, ranks, laneOf, collate, r');
  }

  // ---------------------------------------------------------------- what the rows mean

  lemma {:induction false} ColumnKeepsOrder(ids: seq<string>, ranks: map<string, nat>, rank: nat)
    requires forall id :: id in ids ==> id in ranks
    ensures Distinct(ids) ==> Distinct(Column(ids, ranks, rank))
    ensures forall a, b :: Earlier(Column(ids, ranks, rank), a, b) ==> Earlier(ids, a, b)
  {
    if ids != [] {
      var front, last := ids[..|ids| - 1], ids[|ids| - 1];
      assert ids == front + [last];
      ColumnKeepsOrder(front, ranks, rank);
      var c := Column(front, ranks, rank);
      forall a, b | Earlier(Column(ids, ranks, rank), a, b) ensures Earlier(ids, a, b) {
        if Earlier(c, a, b) {
          var i, j :| 0 <= i < j < |front| && front[i] == a && front[j] == b;
          assert ids[i] == a && ids[j] == b;
        } else {
          assert a in c && b == last;
          var i :| 0 <= i < |front| && front[i] == a;
          assert ids[i] == a && ids[|front|] == b;
        }
      }
    }
  }

  ghost function Members(ids: seq<string>, ranks: map<string, nat>, rank: nat): set<string>
    requires forall id :: id in ids ==> id in ranks
  {
    set id | id in ids && ranks[id] == rank
  }

  /**
   With pairwise different ids, a column of `k` nodes uses each of the rows 0 to k-1 exactly once.
   */
  lemma RowsFillColumn(ids: seq<string>, ranks: map<string, nat>, laneOf: map<string, nat>,
                       collate: (string, string) -> int, rows: map<string, nat>, rank: nat)
    requires Distinct(ids) && (forall id :: id in ids ==> id in ranks)
    requires RowsMatch(ids, ranks, laneOf, collate, rows, rank)
    ensures forall id :: id in Members(ids, ranks, rank) ==> id in rows
    ensures (set id | id in Members(ids, ranks, rank) :: rows[id]) == Range(|Members(ids, ranks, rank)|)
    ensures forall a, b :: a in Members(ids, ranks, rank) && b in Members(ids, ranks, rank) && a != b ==>
              rows[a] != rows[b]
  {
    var s := Column(ids, ranks, rank);
    var t := SortedColumn(ids, ranks, laneOf, collate, rank);
    SortedMembers(ids, ranks, laneOf, collate, rank);
    ColumnKeepsOrder(ids, ranks, rank);
    DistinctPermutation(s, t);
    DistinctCardinality(t);
    assert Elements(t) == Members(ids, ranks, rank);
    IndicesFill(t, rows);
  }

  lemma IndicesFill(t: seq<string>, rows: map<string, nat>)
    requires Distinct(t) && forall id :: id in t ==> id in rows && rows[id] < |t| && t[rows[id]] == id
    ensures (set id | id in Elements(t) :: rows[id]) == Range(|t|)
  {
    forall row | row in Range(|t|) ensures row in (set id | id in Elements(t) :: rows[id]) {
      assert t[row] in Elements(t) && rows[t[row]] == row;
    }
  }

  /**
   With pairwise different ids, a node is above another of its column exactly when its lane is
   smaller, any lane counting as smaller than none, or the lanes agree and its id comes first in
   locale order, or else first in the input.
   */
  lemma RowsFollowLanes(ids: seq<string>, ranks: map<string, nat>, laneOf: map<string, nat>,
                        collate: (string, string) -> int, rows: map<string, nat>, rank: nat, a: string, b: string)
    requires Consistent(collate) && Distinct(ids) && (forall id :: id in ids ==> id in ranks)
    requires RowsMatch(ids, ranks, laneOf, collate, rows, rank)
    requires a in Members(ids, ranks, rank) && b in Members(ids, ranks, rank) && a != b
    ensures a in rows && b in rows && (rows[a] < rows[b] <==> Placed(CompareRows(laneOf, collate), ids, a, b))
  {
    SortedMembers(ids, ranks, laneOf, collate, rank);
    var t := SortedColumn(ids, ranks, laneOf, collate, rank);
    assert rows[a] != rows[b] by { assert t[rows[a]] != t[rows[b]]; }
    if rows[a] < rows[b] {
      AboveIsPlaced(ids, ranks, laneOf, collate, rank, rows[a], rows[b]);
    } else {
      AboveIsPlaced(ids, ranks, laneOf, collate, rank, rows[b], rows[a]);
    }
  }

  lemma AboveIsPlaced(ids: seq<string>, ranks: map<string, nat>, laneOf: map<string, nat>,
                      collate: (string, string) -> int, rank: nat, i: nat, j: nat)
    requires Consistent(collate) && Distinct(ids) && (forall id :: id in ids ==> id in ranks)
    requires i < j < |SortedColumn(ids, ranks, laneOf, collate, rank)|
    ensures var t, cmp := SortedColumn(ids, ranks, laneOf, collate, rank), CompareRows(laneOf, collate);
            Placed(cmp, ids, t[i], t[j]) && !Placed(cmp, ids, t[j], t[i])
  {
    var t, cmp := SortedColumn(ids, ranks, laneOf, collate, rank), CompareRows(laneOf, collate);
    CompareRowsConsistent(laneOf, collate);
    SortIsOrdered(cmp, Column(ids, ranks, rank));
    ColumnKeepsOrder(ids, ranks, rank);
    assert Placed(cmp, Column(ids, ranks, rank), t[i], t[j]);
    assert cmp(t[i], t[j]) < 0 <==> cmp(t[j], t[i]) > 0;
  }
}
