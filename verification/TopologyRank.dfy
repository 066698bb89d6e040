/**
 Columns of the topology view: the longest-path ranking of the derived precedence, with its memo,
 its stack and the fallback for nodes on which a cycle closes.
 */
module TopologyRank {
  import opened Prelude
  import opened Graphs
  import opened TopologyPrecedence

  /**
   What holds of the memo and of the nodes flagged as closing a cycle whenever `rankOf` is entered
   or left, on any precedence `g`, cyclic or not.
   */
  ghost predicate Sound(g: set<(string, string)>, memo: map<string, nat>, cyclic: set<string>) {
    && (forall v :: v in memo ==> SoundAt(g, memo, cyclic, v))
    && (forall v :: v in cyclic ==> OnCycle(g, v))
  }

  ghost predicate SoundAt(g: set<(string, string)>, memo: map<string, nat>, cyclic: set<string>, v: string)
    requires v in memo
  {
    && (AcyclicAbove(g, v) ==> LongestAt(g, v, memo[v]))
    && (forall p :: (p, v) in g ==> p in cyclic || (p in memo && memo[p] < memo[v]))
    && (memo[v] > 0 ==> exists p :: p in memo && memo[p] + 1 == memo[v])
  }

  /** Every edge joins two of the nodes `known`. */
  ghost predicate Inside(g: set<(string, string)>, known: set<string>) {
    forall p, v :: (p, v) in g ==> p in known && v in known
  }

  ghost predicate Unranked(stack: set<string>, memo: map<string, nat>) {
    forall s :: s in stack ==> s !in memo
  }

  ghost predicate Extends(before: map<string, nat>, after: map<string, nat>) {
    forall v :: v in before ==> v in after && after[v] == before[v]
  }

  /** `best` is the rank the predecessors `ps` alone would give: one more than the largest of theirs. */
  ghost predicate Best(memo: map<string, nat>, cyclic: set<string>, ps: seq<string>, best: nat) {
    && (forall p :: p in ps ==> p in cyclic || (p in memo && memo[p] < best))
    && (best > 0 ==> exists p :: p in ps && p in memo && memo[p] + 1 == best)
  }

  lemma BestStep(memo: map<string, nat>, cyclic: set<string>, ps: seq<string>, best: nat,
                 pred: string, memo': map<string, nat>, cyclic': set<string>, best': nat)
    requires Best(memo, cyclic, ps, best) && Extends(memo, memo') && cyclic <= cyclic'
    requires if pred in memo' then best' == (if best < memo'[pred] + 1 then memo'[pred] + 1 else best)
             else pred in cyclic' && best' == best
    ensures Best(memo', cyclic', ps + [pred], best')
  {
  }

  lemma RankIsLongest(g: set<(string, string)>, memo: map<string, nat>, cyclic: set<string>, id: string,
                      ps: seq<string>, best: nat)
    requires Sound(g, memo, cyclic) && AcyclicAbove(g, id)
    requires (forall p :: (p, id) in g <==> p in ps) && Best(memo, cyclic, ps, best)
    ensures LongestAt(g, id, best)
  {
    forall p | (p, id) in g ensures p in memo && LongestAt(g, p, memo[p]) && memo[p] < best {
      AcyclicAbovePredecessor(g, p, id);
      assert p in memo ==> SoundAt(g, memo, cyclic, p);
    }
    LongestFromPredecessors(g, id, memo, best);
  }

  lemma SoundRecord(g: set<(string, string)>, memo: map<string, nat>, cyclic: set<string>, id: string, ps: seq<string>,
                    best: nat)
    requires Sound(g, memo, cyclic) && id !in memo
    requires AcyclicAbove(g, id) ==> LongestAt(g, id, best)
    requires (forall p :: (p, id) in g <==> p in ps) && Best(memo, cyclic, ps, best)
    ensures Sound(g, memo[id := best], cyclic)
  {
    var after := memo[id := best];
    assert SoundAt(g, after, cyclic, id) by {
      if best > 0 {
        var p :| p in ps && p in memo && memo[p] + 1 == best;
        assert after[p] + 1 == after[id];
      }
    }
    forall v | v in memo ensures SoundAt(g, after, cyclic, v) {
      assert SoundAt(g, memo, cyclic, v);
      if memo[v] > 0 {
        var p :| p in memo && memo[p] + 1 == memo[v];
        assert after[p] + 1 == after[v];
      }
    }
  }

  lemma SoundFlag(g: set<(string, string)>, memo: map<string, nat>, cyclic: set<string>, id: string)
    requires Sound(g, memo, cyclic) && OnCycle(g, id)
    ensures Sound(g, memo, cyclic + {id})
  {
    forall v | v in memo ensures SoundAt(g, memo, cyclic + {id}, v) {
      assert SoundAt(g, memo, cyclic, v);
    }
  }

  // ---------------------------------------------------------------- the recursion

  /** The memo, its keys in the order they were added, and the nodes on which a cycle closed. */
  datatype Work = Work(order: seq<string>, memo: map<string, nat>, cyclic: set<string>)

  const NOTHING := Work([], map[], {})

  /** `rankOf` below the nodes of `stack`. */
  function Rank(preds: map<string, seq<string>>, stack: set<string>, w: Work, id: string): (Work, int)
    decreases preds.Keys - stack, 0
  {
    if id in w.memo then (w, w.memo[id] as int)
    else if id in stack then (Work(w.order, w.memo, w.cyclic + {id}), -1)
    else
      var (t, best) := if id in preds then RankEach(preds, stack + {id}, w, preds[id], 0) else (w, 0);
      (Work(t.order + [id], t.memo[id := best], t.cyclic), best)
  }

  function RankEach(preds: map<string, seq<string>>, stack: set<string>, w: Work, list: seq<string>, best: nat): (Work,
        nat)
    decreases preds.Keys - stack, |list| + 1
  {
    if list == [] then (w, best)
    else
      var (t, r) := Rank(preds, stack, w, list[0]);
      RankEach(preds, stack, t, list[1..], if r >= 0 && best < r + 1 then r + 1 else best)
  }

  /** `rankOf` with its memo, the stack of nodes being ranked and the nodes on which a cycle closed. */
  class Ranker {
    const preds: map<string, seq<string>>
    var memo: map<string, nat>
    var stack: set<string>
    var cyclic: set<string>
    /** The keys of the memo as its `Map` lists them. */
    ghost var order: seq<string>

    ghost function Current(): Work
      reads this
    {
      Work(order, memo, cyclic)
    }

    constructor (preds: map<string, seq<string>>)
      ensures this.preds == preds && stack == {} && Current() == NOTHING
    {
      this.preds := preds;
      memo, stack, cyclic, order := map[], {}, {}, [];
    }

    method RankOf(id: string) returns (r: int)
      modifies this
      ensures stack == old(stack) && (Current(), r) == Rank(preds, old(stack), old(Current()), id)
      decreases preds.Keys - stack
    {
      if id in memo { return memo[id]; }
      if id in stack {
        cyclic := cyclic + {id};
        return -1;
      }
      stack := stack + {id};
      var best: nat := 0;
      var list := Listed(preds, id);
      ghost var start := Current();
      for i := 0 to |list|
        invariant stack == old(stack) + {id}
        invariant RankEach(preds, stack, Current(), list[i..], best) == RankEach(preds, stack, start, list, 0)
      {
        assert list[i..][0] == list[i] && list[i..][1..] == list[i + 1..];
        var pred := RankOf(list[i]);
        if pred >= 0 { best := if best < pred + 1 then pred + 1 else best; }
      }
      stack := stack - {id};
      memo := memo[id := best];
      order := order + [id];
      return best;
    }
  }

  // ---------------------------------------------------------------- what the recursion keeps

  /** A flagged node was flagged by way of a predecessor on its cycle, and that one was finished first. */
  ghost predicate Late(g: set<(string, string)>, w: Work, j: int)
    requires 0 <= j < |w.order|
  {
    w.order[j] in w.cyclic && (w.order[j], w.order[j]) !in g ==>
      exists i :: 0 <= i < j && (w.order[i], w.order[j]) in g && Precedes(g, w.order[j], w.order[i])
  }

  ghost predicate Finishing(g: set<(string, string)>, w: Work) {
    && (forall v :: v in w.order <==> v in w.memo)
    && (forall j :: 0 <= j < |w.order| ==> Late(g, w, j))
  }

  /** What holds whenever `rankOf` is entered or left below `stack`. */
  ghost predicate Held(g: set<(string, string)>, known: set<string>, stack: set<string>, w: Work) {
    && Sound(g, w.memo, w.cyclic) && Unranked(stack, w.memo) && w.memo.Keys <= known
    && w.cyclic <= stack + w.memo.Keys && Finishing(g, w)
  }

  /** From `s` to `t`, below `stack`: nothing is forgotten, and cycles newly closed pass through `id`. */
  ghost predicate Advanced(g: set<(string, string)>, stack: set<string>, id: string, s: Work, t: Work) {
    && Extends(s.memo, t.memo) && s.cyclic <= t.cyclic
    && (forall v :: v in stack && v in t.cyclic && v !in s.cyclic ==> Precedes(g, v, id))
  }

  /** If `id` is flagged, some finished predecessor is on a cycle with it. */
  ghost predicate Grounded(g: set<(string, string)>, id: string, w: Work) {
    id in w.cyclic && (id, id) !in g ==> exists p :: p in w.memo && (p, id) in g && Precedes(g, id, p)
  }

  ghost predicate Below(g: set<(string, string)>, stack: set<string>, id: string) {
    forall s :: s in stack ==> Precedes(g, id, s)
  }

  lemma AdvancedOn(g: set<(string, string)>, stack: set<string>, id: string, s: Work, t: Work, u: Work)
    requires Advanced(g, stack, id, s, t) && Advanced(g, stack, id, t, u)
    ensures Advanced(g, stack, id, s, u)
  {
  }

  /** A step for the predecessor `p` of `id`, seen from `id`. */
  lemma AdvancedFor(g: set<(string, string)>, stack: set<string>, p: string, id: string, s: Work, t: Work)
    requires (p, id) in g && Advanced(g, stack + {id}, p, s, t)
    ensures Advanced(g, stack, id, s, t)
  {
    forall v | v in stack && v in t.cyclic && v !in s.cyclic ensures Precedes(g, v, id) {
      PrecedesStep(g, v, p, id);
    }
  }

  lemma PrecedesStep(g: set<(string, string)>, a: string, b: string, c: string)
    requires Precedes(g, a, b) && (b, c) in g
    ensures Precedes(g, a, c)
  {
    var n: nat :| n > 0 && Walk(g, a, b, n);
    assert Walk(g, a, c, n + 1);
  }

  lemma Flagging(g: set<(string, string)>, known: set<string>, stack: set<string>, w: Work, id: string)
    requires Held(g, known, stack, w) && id in stack && Precedes(g, id, id)
    ensures Held(g, known, stack, Work(w.order, w.memo, w.cyclic + {id}))
  {
    var t := Work(w.order, w.memo, w.cyclic + {id});
    SoundFlag(g, w.memo, w.cyclic, id);
    forall j | 0 <= j < |t.order| ensures Late(g, t, j) {
      assert Late(g, w, j);
      assert w.order[j] in w.memo;
    }
    hide Sound, Precedes;
  }

  lemma Finished(g: set<(string, string)>, known: set<string>, stack: set<string>, t: Work, id: string,
                 list: seq<string>, best: nat)
    requires Held(g, known, stack + {id}, t) && id in known && id !in stack && Grounded(g, id, t)
    requires (forall p :: (p, id) in g <==> p in list) && Best(t.memo, t.cyclic, list, best)
    ensures Held(g, known, stack, Work(t.order + [id], t.memo[id := best], t.cyclic))
  {
    var u := Work(t.order + [id], t.memo[id := best], t.cyclic);
    assert id in stack + {id};
    if AcyclicAbove(g, id) { RankIsLongest(g, t.memo, t.cyclic, id, list, best); }
    SoundRecord(g, t.memo, t.cyclic, id, list, best);
    hide Sound, Precedes, AcyclicAbove, LongestAt, Best;
    forall j | 0 <= j < |u.order| ensures Late(g, u, j) {
      if j < |t.order| {
        LateKept(g, t, u, j);
      } else if id in u.cyclic && (id, id) !in g {
        var p :| p in t.memo && (p, id) in g && Precedes(g, id, p);
        var i :| 0 <= i < |t.order| && t.order[i] == p;
        assert u.order[i] == p;
      }
    }
  }

  lemma LateKept(g: set<(string, string)>, t: Work, u: Work, j: int)
    requires 0 <= j < |t.order| && t.order <= u.order && u.cyclic == t.cyclic && Late(g, t, j)
    ensures Late(g, u, j)
  {
    hide Precedes;
    if t.order[j] in t.cyclic && (t.order[j], t.order[j]) !in g {
      var i :| 0 <= i < j && (t.order[i], t.order[j]) in g && Precedes(g, t.order[j], t.order[i]);
      assert u.order[i] == t.order[i];
    }
  }

  ghost predicate Answers(stack: set<string>, id: string, t: Work, r: int) {
    if id in t.memo then r == t.memo[id] else r == -1 && id in t.cyclic && id in stack
  }

  lemma {:induction false} RankKeeps(preds: map<string, seq<string>>, known: set<string>, stack: set<string>, w: Work,
                                     id: string)
    requires id in known && Inside(Converse(preds), known)
    requires Held(Converse(preds), known, stack, w) && Below(Converse(preds), stack, id)
    ensures var (t, r) := Rank(preds, stack, w, id);
            Held(Converse(preds), known, stack, t) && Advanced(Converse(preds), stack, id, w, t)
              && Answers(stack, id, t, r)
    decreases preds.Keys - stack, 0
  {
    hide Sound, Precedes, Finishing, Converse;
    var g := Converse(preds);
    if id in w.memo {
    } else if id in stack {
      Flagging(g, known, stack, w, id);
    } else {
      var list := Listed(preds, id);
      PredecessorsOf(preds, id);
      HeldOnEntry(g, known, stack, w, id);
      var t, best := w, 0;
      if id in preds {
        RankEachKeeps(preds, known, stack, w, id, [], list, 0);
        var (t', best') := RankEach(preds, stack + {id}, w, preds[id], 0);
        t, best := t', best';
        assert [] + list == list;
      }
      Finished(g, known, stack, t, id, list, best);
    }
  }

  lemma PredecessorsOf(preds: map<string, seq<string>>, id: string)
    ensures forall p :: (p, id) in Converse(preds) <==> p in Listed(preds, id)
  {
  }

  lemma HeldOnEntry(g: set<(string, string)>, known: set<string>, stack: set<string>, w: Work, id: string)
    requires Held(g, known, stack, w) && id !in w.memo && id !in stack
    ensures Held(g, known, stack + {id}, w) && Grounded(g, id, w) && Best(w.memo, w.cyclic, [], 0)
  {
    hide Sound, Finishing, Precedes;
  }

  lemma {:induction false} RankEachKeeps(preds: map<string, seq<string>>, known: set<string>, stack: set<string>,
                                         w: Work, id: string,
                                         seen: seq<string>, list: seq<string>, best: nat)
    requires id in known && id !in stack && id in preds && Inside(Converse(preds), known)
             && Below(Converse(preds), stack, id)
    requires forall p :: p in list ==> (p, id) in Converse(preds)
    requires Held(Converse(preds), known, stack + {id}, w) && Grounded(Converse(preds), id, w)
             && Best(w.memo, w.cyclic, seen, best)
    ensures var (t, best') := RankEach(preds, stack + {id}, w, list, best);
            Held(Converse(preds), known, stack + {id}, t) && Advanced(Converse(preds), stack, id, w, t)
            && Grounded(Converse(preds), id, t) && Best(t.memo, t.cyclic, seen + list, best')
    decreases preds.Keys - (stack + {id}), |list| + 1
  {
    hide Sound, Precedes, Finishing, Converse, Late;
    var g := Converse(preds);
    if list == [] {
      assert seen + list == seen;
    } else {
      var p := list[0];
      StackBelow(g, stack, id, p);
      RankKeeps(preds, known, stack + {id}, w, p);
      var (t, r) := Rank(preds, stack + {id}, w, p);
      var next := if r >= 0 && best < r + 1 then r + 1 else best;
      BestStep(w.memo, w.cyclic, seen, best, p, t.memo, t.cyclic, next);
      AdvancedFor(g, stack, p, id, w, t);
      StillGrounded(g, stack, id, p, w, t, r);
      RankEachKeeps(preds, known, stack, t, id, seen + [p], list[1..], next);
      assert seen + [p] + list[1..] == seen + list;
      var (u, last) := RankEach(preds, stack + {id}, t, list[1..], next);
      AdvancedOn(g, stack, id, w, t, u);
    }
  }

  lemma StackBelow(g: set<(string, string)>, stack: set<string>, id: string, pred: string)
    requires (pred, id) in g && Below(g, stack, id)
    ensures Below(g, stack + {id}, pred)
  {
    forall s | s in stack + {id} ensures Precedes(g, pred, s) {
      EdgePrecedes(g, pred, id, s);
    }
  }

  lemma StillGrounded(g: set<(string, string)>, stack: set<string>, id: string, p: string, w: Work, t: Work, r: int)
    requires (p, id) in g && Advanced(g, stack + {id}, p, w, t) && Grounded(g, id, w) && Answers(stack + {id}, p, t, r)
    requires id !in w.memo && (p in stack ==> t.cyclic == w.cyclic + {p})
    ensures Grounded(g, id, t)
  {
    hide Precedes;
  }

  /** The index a `Map` built from the nodes in order keeps: the last one with this id. */
  function IndexById(ids: seq<string>, id: string): (r: nat)
    requires id in ids
    ensures r < |ids| && ids[r] == id && id !in ids[r + 1..]
  {
    if ids[|ids| - 1] == id then |ids| - 1 else IndexById(ids[..|ids| - 1], id)
  }

  /** The chain of ranks below a memoised one is realised by pairwise different nodes. */
  lemma {:induction false} RankBelowMemoSize(g: set<(string, string)>, memo: map<string, nat>, cyclic: set<string>,
                                             v: string)
    returns (chain: set<string>)
    requires Sound(g, memo, cyclic) && v in memo
    ensures v in chain && chain <= memo.Keys && |chain| == memo[v] + 1
    ensures forall u :: u in chain ==> memo[u] <= memo[v]
    decreases memo[v]
  {
    assert SoundAt(g, memo, cyclic, v);
    if memo[v] == 0 {
      chain := {v};
    } else {
      var p :| p in memo && memo[p] + 1 == memo[v];
      chain := RankBelowMemoSize(g, memo, cyclic, p);
      chain := chain + {v};
    }
  }

  /** The memo, and the flagged nodes, after the first `n` nodes of the input were ranked. */
  function RankUpTo(preds: map<string, seq<string>>, ids: seq<string>, n: nat): Work
    requires n <= |ids|
  {
    if n == 0 then NOTHING else Rank(preds, {}, RankUpTo(preds, ids, n - 1), ids[n - 1]).0
  }

  lemma NothingHeld(g: set<(string, string)>, known: set<string>)
    ensures Held(g, known, {}, NOTHING)
  {
  }

  lemma {:induction false} RankUpToKeeps(preds: map<string, seq<string>>, ids: seq<string>, n: nat)
    requires n <= |ids| && Inside(Converse(preds), Elements(ids))
    ensures Held(Converse(preds), Elements(ids), {}, RankUpTo(preds, ids, n))
    ensures forall k :: 0 <= k < n ==> ids[k] in RankUpTo(preds, ids, n).memo
  {
    hide Rank, Converse, Held, Inside;
    NothingHeld(Converse(preds), Elements(ids));
    if n > 0 {
      RankUpToKeeps(preds, ids, n - 1);
      KeptSoFar(preds, ids, n - 1);
    }
  }

  /** Ranking one more node of the input, with nothing on the stack. */
  lemma KeptSoFar(preds: map<string, seq<string>>, ids: seq<string>, n: nat)
    requires n < |ids| && Inside(Converse(preds), Elements(ids))
    requires Held(Converse(preds), Elements(ids), {}, RankUpTo(preds, ids, n))
    ensures var (t, r) := Rank(preds, {}, RankUpTo(preds, ids, n), ids[n]);
            Held(Converse(preds), Elements(ids), {}, t)
            && Extends(RankUpTo(preds, ids, n).memo, t.memo) && ids[n] in t.memo && r == t.memo[ids[n]]
  {
    assert ids[n] in Elements(ids);
    RankKeeps(preds, Elements(ids), {}, RankUpTo(preds, ids, n), ids[n]);
    hide Rank, RankUpTo, Converse, Held, Inside, Precedes;
  }

  method RankAll(ids: seq<string>, preds: map<string, seq<string>>)
    returns (ranks: map<string, nat>, cyclic: set<string>)
    requires Inside(Converse(preds), Elements(ids))
    ensures ranks == RankUpTo(preds, ids, |ids|).memo && cyclic == RankUpTo(preds, ids, |ids|).cyclic
    ensures Sound(Converse(preds), ranks, cyclic) && ranks.Keys == Elements(ids)
  {
    var ranker := new Ranker(preds);
    ranks := map[];
    hide Sound, Converse, Inside, Precedes, Elements, Rank;
    for i := 0 to |ids|
      invariant ranker.preds == preds && ranker.stack == {}
      invariant ranker.Current() == RankUpTo(preds, ids, i)
      invariant Extends(ranks, ranker.memo) && Ranked(ids[..i], ranks)
    {
      ghost var memo := ranker.memo;
      RankUpToKeeps(preds, ids, i);
      KeptSoFar(preds, ids, i);
      var r := ranker.RankOf(ids[i]);
      RankedOneMore(ids[..i], ranks, memo, ranker.memo, ids[i], r);
      ranks := ranks[ids[i] := r];
      TakeOneMore(ids, i);
    }
    TakeAll(ids);
    RankUpToKeeps(preds, ids, |ids|);
    SameRanks(ids, ranks, ranker.memo);
    cyclic := ranker.cyclic;
  }

  ghost predicate Ranked(ids: seq<string>, ranks: map<string, nat>) {
    forall id :: id in ids ==> id in ranks
  }

  lemma RankedOneMore(ids: seq<string>, ranks: map<string, nat>, memo: map<string, nat>, memo': map<string, nat>,
                      id: string, r: nat)
    requires Extends(ranks, memo) && Extends(memo, memo') && id in memo' && memo'[id] == r
    requires Ranked(ids, ranks)
    ensures Extends(ranks[id := r], memo') && Ranked(ids + [id], ranks[id := r])
  {
  }

  lemma SameRanks(ids: seq<string>, ranks: map<string, nat>, memo: map<string, nat>)
    requires Extends(ranks, memo) && memo.Keys <= Elements(ids)
    requires Ranked(ids, ranks)
    ensures ranks == memo && ranks.Keys == Elements(ids)
  {
  }

  /** Nodes on which a cycle closed are ranked by their position in the input instead. */
  method FallBack(ids: seq<string>, memo: map<string, nat>, cyclic: set<string>) returns (ranks: map<string, nat>)
    requires memo.Keys == Elements(ids)
    ensures ranks.Keys == Elements(ids)
    ensures forall v :: v in ids ==> ranks[v] == if v in cyclic then IndexById(ids, v) else memo[v]
  {
    ranks := memo;
    var todo := cyclic * memo.Keys;
    while todo != {}
      invariant todo <= cyclic * memo.Keys && ranks.Keys == Elements(ids)
      invariant forall v :: v in ids ==> ranks[v] == if v in cyclic && v !in todo then IndexById(ids, v) else memo[v]
      decreases todo
    {
      var id :| id in todo;
      ranks := ranks[id := IndexById(ids, id)];
      todo := todo - {id};
    }
  }

  lemma {:induction false} RanksAreRight(ids: seq<string>, g: set<(string, string)>, memo: map<string, nat>,
                                         cyclic: set<string>, ranks: map<string, nat>)
    requires Inside(g, Elements(ids))
    requires Sound(g, memo, cyclic) && memo.Keys == Elements(ids) == ranks.Keys
    requires forall v :: v in ids ==> ranks[v] == if v in cyclic then IndexById(ids, v) else memo[v]
    ensures forall v :: v in ids && AcyclicAbove(g, v) ==> LongestAt(g, v, ranks[v])
    ensures Acyclic(g) <==> forall p, v :: (p, v) in g ==> ranks[p] < ranks[v]
    ensures forall v :: v in ids ==> ranks[v] < |ids|
  {
    forall v | v in ids ensures AcyclicAbove(g, v) ==> LongestAt(g, v, ranks[v]) {
      assert SoundAt(g, memo, cyclic, v);
      ReachesSelf(g, v);
    }
    if Acyclic(g) {
      forall p, v | (p, v) in g ensures ranks[p] < ranks[v] {
        assert SoundAt(g, memo, cyclic, v);
      }
    }
    if forall p, v :: (p, v) in g ==> ranks[p] < ranks[v] {
      IncreasingIsAcyclic(g, ranks);
    }
    forall v | v in ids ensures ranks[v] < |ids| {
      if v !in cyclic {
        var chain := RankBelowMemoSize(g, memo, cyclic, v);
        SubsetCardinality(chain, Elements(ids));
        DistinctCardinality(ids);
      }
    }
  }

  /**
   The column of every node. Where nothing upstream is cyclic it is the length of the longest walk
   of the precedence; the whole precedence is acyclic exactly when every edge of it strictly
   increases the column; and on any input, cyclic ones included, the columns are below the node count.
   */
  method ComputeRanks(ids: seq<string>, preds: map<string, seq<string>>) returns (ranks: map<string, nat>)
    requires Inside(Converse(preds), Elements(ids))
    ensures ranks == NodeRanks(ids, preds)
    ensures ranks.Keys == Elements(ids)
    ensures forall v :: v in ids && AcyclicAbove(Converse(preds), v) ==> LongestAt(Converse(preds), v, ranks[v])
    ensures Acyclic(Converse(preds)) <==> forall p, v :: (p, v) in Converse(preds) ==> ranks[p] < ranks[v]
    ensures forall v :: v in ids ==> ranks[v] < |ids|
  {
    var memo, cyclic := RankAll(ids, preds);
    ranks := FallBack(ids, memo, cyclic);
    hide *;
    RanksAreRight(ids, Converse(preds), memo, cyclic, ranks);
    RanksAreThese(ids, preds, ranks);
  }

  lemma RanksAreThese(ids: seq<string>, preds: map<string, seq<string>>, ranks: map<string, nat>)
    requires ranks.Keys == Elements(ids) == RankUpTo(preds, ids, |ids|).memo.Keys
    requires forall v :: v in ids ==>
               ranks[v] == if v in RankUpTo(preds, ids, |ids|).cyclic then IndexById(ids, v)
                 else RankUpTo(preds, ids, |ids|).memo[v]
    ensures ranks == NodeRanks(ids, preds)
  {
    hide RankUpTo, IndexById;
    var these := NodeRanks(ids, preds);
    assert ranks.Keys == these.Keys;
    assert forall v :: v in ranks ==> ranks[v] == these[v];
  }

  /** The rank of every node: its position in the input if a cycle closed on it, else what was memoised. */
  function NodeRanks(ids: seq<string>, preds: map<string, seq<string>>): map<string, nat> {
    var w := RankUpTo(preds, ids, |ids|);
    map v | v in ids :: if v in w.cyclic then IndexById(ids, v) else if v in w.memo then w.memo[v] else 0
  }

  // ---------------------------------------------------------------- which nodes of a cycle fall back

  /** A closed walk passes through both. */
  ghost predicate Together(g: set<(string, string)>, a: string, b: string) {
    Precedes(g, a, b) && Precedes(g, b, a)
  }

  lemma PrecedesTrans(g: set<(string, string)>, a: string, b: string, c: string)
    requires Precedes(g, a, b) && Precedes(g, b, c)
    ensures Precedes(g, a, c)
  {
    var m: nat :| m > 0 && Walk(g, a, b, m);
    var n: nat :| n > 0 && Walk(g, b, c, n);
    WalkConcat(g, a, b, c, m, n);
  }

  /** Following flagged nodes back to those finished before them ends at one that was not flagged. */
  lemma {:induction false} FirstFinished(g: set<(string, string)>, w: Work, v: string, j: int) returns (u: string)
    requires Finishing(g, w) && 0 <= j < |w.order| && Together(g, v, w.order[j])
    requires forall x :: Together(g, v, x) ==> (x, x) !in g
    ensures Together(g, v, u) && u in w.memo && u !in w.cyclic
    decreases j
  {
    u := w.order[j];
    if u in w.cyclic {
      assert Late(g, w, j);
      var i :| 0 <= i < j && (w.order[i], w.order[j]) in g && Precedes(g, w.order[j], w.order[i]);
      PrecedesTrans(g, v, u, w.order[i]);
      EdgePrecedes(g, w.order[i], u, v);
      u := FirstFinished(g, w, v, i);
    }
  }

  /** On every cycle whose nodes have no edge to themselves, some node keeps the rank it was given. */
  lemma SomeNodeKeepsItsRank(ids: seq<string>, preds: map<string, seq<string>>, v: string) returns (u: string)
    requires Inside(Converse(preds), Elements(ids)) && OnCycle(Converse(preds), v)
    requires forall x :: Together(Converse(preds), v, x) ==> (x, x) !in Converse(preds)
    ensures Together(Converse(preds), v, u) && u in ids
    ensures u in RankUpTo(preds, ids, |ids|).memo && u !in RankUpTo(preds, ids, |ids|).cyclic
    ensures NodeRanks(ids, preds)[u] == RankUpTo(preds, ids, |ids|).memo[u]
  {
    var g, w := Converse(preds), RankUpTo(preds, ids, |ids|);
    RankUpToKeeps(preds, ids, |ids|);
    CycleInside(g, Elements(ids), v);
    var k :| 0 <= k < |ids| && ids[k] == v;
    var j :| 0 <= j < |w.order| && w.order[j] == v;
    u := FirstFinished(g, w, v, j);
  }

  lemma CycleInside(g: set<(string, string)>, known: set<string>, v: string)
    requires Inside(g, known) && OnCycle(g, v)
    ensures v in known
  {
    var n: nat :| n > 0 && Walk(g, v, v, n);
    var m :| Walk(g, v, m, n - 1) && (m, v) in g;
  }

  // ---------------------------------------------------------------- ranking a whole graph

  ghost predicate AllKnown(ids: seq<string>, edges: seq<Edge>) {
    forall e :: e in edges ==> Known(ids, e)
  }

  /** The derived precedence as a graph. */
  ghost function Precedence(ids: seq<string>, edges: seq<Edge>): set<(string, string)> {
    set a, b | a in ids && b in ids && Advances(edges, a, b) :: (a, b)
  }

  lemma FinishKnown(ids: seq<string>, edges: seq<Edge>, e: Edge, step: string)
    requires AllKnown(ids, edges) && e in edges && step in Finish(Joins(edges), e.source, {}).0
    ensures step in ids
  {
    var g := Relation(Joins(edges));
    FinishExpandsJoin(Joins(edges), e.source);
    forall x, y | x in Elements(ids) && (x, y) in g ensures y in Elements(ids) {
      assert Has(Joins(edges), x, y);
    }
    ClosedContainsReachable(g, Elements(ids), e.source, step);
  }

  lemma AdvancesKnown(ids: seq<string>, edges: seq<Edge>, a: string, b: string)
    requires AllKnown(ids, edges) && Advances(edges, a, b)
    ensures a in ids && b in ids
  {
    var i :| 0 <= i < |edges| && AdvancedBy(edges, edges[i], a, b);
    assert edges[i] in edges && Known(ids, edges[i]);
    if edges[i].kind == "collect" && Continued(edges, edges[i].target, b)
       && a in Finish(Joins(edges), edges[i].source, {}).0 {
      var e :| e in edges && Continues(e) && e.source == edges[i].target && e.target == b;
      assert Known(ids, e);
      FinishKnown(ids, edges, edges[i], a);
    }
  }

  /**
   Columns of a whole graph: where nothing upstream is cyclic, the length of the longest walk of the
   derived precedence; strictly increasing along all of it exactly when it is acyclic; and always
   below the number of nodes.
   */
  ghost predicate RanksRight(ids: seq<string>, valid: seq<Edge>, ranks: map<string, nat>) {
    var g := Precedence(ids, valid);
    && ranks.Keys == Elements(ids)
    && (forall v :: v in ids && AcyclicAbove(g, v) ==> LongestAt(g, v, ranks[v]))
    && (Acyclic(g) <==> forall a, b :: (a, b) in g ==> ranks[a] < ranks[b])
    && (forall v :: v in ids ==> ranks[v] < |ids|)
  }

  method RankNodes(ids: seq<string>, edges: seq<Edge>) returns (ranks: map<string, nat>)
    requires AllKnown(ids, edges)
    ensures ranks == NodeRanks(ids, Predecessors(edges))
    ensures RanksRight(ids, edges, ranks)
  {
    var preds := BuildPredecessors(edges);
    PredecessorsArePrecedence(ids, edges, preds);
    ranks := ComputeRanks(ids, preds);
  }

  lemma PredecessorsArePrecedence(ids: seq<string>, edges: seq<Edge>, preds: map<string, seq<string>>)
    requires AllKnown(ids, edges)
    requires forall a, b :: Has(preds, b, a) <==> Advances(edges, a, b)
    ensures Converse(preds) == Precedence(ids, edges) && Inside(Converse(preds), Elements(ids))
  {
    forall a, b ensures (a, b) in Converse(preds) <==> (a, b) in Precedence(ids, edges) {
      assert (a, b) in Converse(preds) <==> Has(preds, b, a);
      if Advances(edges, a, b) { AdvancesKnown(ids, edges, a, b); }
    }
  }

  /**
   When the derived precedence is acyclic, ranks grow along every forward edge, and every step that
   finishes a block at any nesting depth is ranked before whatever continues after the block.
   */
  lemma {:induction false} ColumnsFollowTheFlow(ids: seq<string>, edges: seq<Edge>, ranks: map<string, nat>)
    requires AllKnown(ids, edges) && ranks.Keys == Elements(ids) && Acyclic(Precedence(ids, edges))
    requires forall a, b :: (a, b) in Precedence(ids, edges) ==> ranks[a] < ranks[b]
    ensures forall e :: e in edges && Forward(e) ==> ranks[e.source] < ranks[e.target]
    ensures forall e, step, next :: e in edges && e.kind == "collect" && Continued(edges, e.target, next)
              && step in ids && Reaches(Relation(Joins(edges)), e.source, step) && EndsBlock(Joins(edges), step)
              ==> next in ids && ranks[step] < ranks[next]
  {
    forall e | e in edges && Forward(e) ensures ranks[e.source] < ranks[e.target] {
      var i :| 0 <= i < |edges| && edges[i] == e;
      assert AdvancedBy(edges, edges[i], e.source, e.target);
      assert (e.source, e.target) in Precedence(ids, edges);
    }
    forall e, step, next | e in edges && e.kind == "collect" && Continued(edges, e.target, next)
              && step in ids && Reaches(Relation(Joins(edges)), e.source, step) && EndsBlock(Joins(edges), step)
      ensures next in ids && ranks[step] < ranks[next]
    {
      BlockPrecedesContinuation(edges, e, step, next);
      AdvancesKnown(ids, edges, step, next);
      assert (step, next) in Precedence(ids, edges);
    }
  }

  // ---------------------------------------------------------------- the fallback on a whole graph

  /** A cycle closed on `v` while the nodes were ranked, so its column is its position in the input. */
  predicate FallsBack(ids: seq<string>, edges: seq<Edge>, v: string) {
    v in RankUpTo(Predecessors(edges), ids, |ids|).cyclic
  }

  /**
   Unless some node is its own predecessor, all the nodes on cycles take their input position only
   if there is no cycle at all: each cycle has a node that keeps a rank.
   */
  lemma AllFallBackIffAcyclic(ids: seq<string>, edges: seq<Edge>)
    requires AllKnown(ids, edges) && forall v :: (v, v) !in Precedence(ids, edges)
    ensures (forall v :: OnCycle(Precedence(ids, edges), v) ==> FallsBack(ids, edges, v)) <==>
              Acyclic(Precedence(ids, edges))
  {
    var preds := Predecessors(edges);
    PredecessorsArePrecedence(ids, edges, preds);
    if v :| OnCycle(Precedence(ids, edges), v) {
      var u := SomeNodeKeepsItsRank(ids, preds, v);
      PrecedesTrans(Converse(preds), u, v, u);
      assert OnCycle(Precedence(ids, edges), u) && !FallsBack(ids, edges, u);
    }
  }

  function TwoIds(): seq<string> { ["a", "b"] }

  function TwoEdges(): seq<Edge> {
    [Edge("a", "b", "sequential", None), Edge("b", "a", "sequential", None)]
  }

  /** Two steps that follow each other: the first takes its input position, the second keeps rank 0 at position 1. */
  lemma SecondOfTwoKeepsItsRank()
    ensures OnCycle(Precedence(TwoIds(), TwoEdges()), "b") && !FallsBack(TwoIds(), TwoEdges(), "b")
    ensures NodeRanks(TwoIds(), Predecessors(TwoEdges()))["b"] == 0 && IndexById(TwoIds(), "b") == 1
  {
    var ids, edges, preds := TwoIds(), TwoEdges(), Predecessors(TwoEdges());
    TwoPredecessors();
    TwoWork();
    assert AdvancedBy(edges, edges[0], "a", "b") && AdvancedBy(edges, edges[1], "b", "a");
    var g := Precedence(ids, edges);
    assert ("a", "b") in g && ("b", "a") in g;
    EdgeWalk(g, "b", "a");
    EdgePrecedes(g, "a", "b", "b");
    EdgePrecedes(g, "b", "a", "b");
  }

  lemma TwoPredecessors()
    ensures Predecessors(TwoEdges()) == map["b" := ["a"], "a" := ["b"]]
  {
    var edges := TwoEdges();
    var none: map<string, seq<string>> := map[];
    var one: map<string, seq<string>> := map["b" := ["a"]];
    assert [] + ["a"] == ["a"] && [] + ["b"] == ["b"];
    assert PredecessorsUpTo(edges, 0) == none;
    assert PredecessorsUpTo(edges, 1) == PushEdge(none, edges, edges[0]) == Push(none, "b", "a") == one;
    assert PredecessorsUpTo(edges, 2) == PushEdge(one, edges, edges[1]) == Push(one, "a", "b");
  }

  lemma TwoWork()
    ensures RankUpTo(map["b" := ["a"], "a" := ["b"]], ["a", "b"], 2) == Work(["b", "a"], map["b" := 0, "a" := 1], {"a"})
  {
    var preds: map<string, seq<string>> := map["b" := ["a"], "a" := ["b"]];
    var ids := ["a", "b"];
    var a, b, both := {"a"}, {"a"} + {"b"}, {"a", "b"};
    var none: map<string, nat> := map[];
    assert {} + {"a"} == a && b == both && ["a"][1..] == [] && ["b"][1..] == [];
    var flagged, first := Work([], none, a), Work(["b"], map["b" := 0], a);
    assert Rank(preds, both, NOTHING, "a") == (flagged, -1);
    assert RankEach(preds, both, NOTHING, ["a"], 0) == (flagged, 0) by {
      assert RankEach(preds, both, flagged, [], 0) == (flagged, 0);
    }
    assert [] + ["b"] == ["b"] && none["b" := 0] == map["b" := 0];
    assert Rank(preds, a, NOTHING, "b") == (first, 0);
    assert RankEach(preds, a, NOTHING, ["b"], 0) == (first, 1) by {
      assert RankEach(preds, a, first, [], 1) == (first, 1);
    }
    var last := Work(["b", "a"], map["b" := 0, "a" := 1], a);
    assert ["b"] + ["a"] == ["b", "a"] && map["b" := 0]["a" := 1] == map["b" := 0, "a" := 1];
    assert Rank(preds, {}, NOTHING, "a") == (last, 1);
    assert RankUpTo(preds, ids, 0) == NOTHING && RankUpTo(preds, ids, 1) == last;
    assert Rank(preds, {}, last, "b") == (last, 0);
  }
}
