/**
 Finite directed graphs as sets of edges, and walks in them. The layout, the impact walk and the
 policy chain all state their results against these definitions, so none of them is specified by
 the algorithm it uses.
 */
module Graphs {

  /** There is a walk of exactly `n` edges from `a` to `b`. */
  ghost predicate Walk<N(!new)>(g: set<(N, N)>, a: N, b: N, n: nat)
    decreases n
  {
    if n == 0 then a == b else exists m :: Walk(g, a, m, n - 1) && (m, b) in g
  }

  ghost predicate Reaches<N(!new)>(g: set<(N, N)>, a: N, b: N) {
    exists n: nat :: Walk(g, a, b, n)
  }

  /** `a` comes strictly before `b`: some walk with at least one edge joins them. */
  ghost predicate Precedes<N(!new)>(g: set<(N, N)>, a: N, b: N) {
    exists n: nat :: n > 0 && Walk(g, a, b, n)
  }

  /** A closed walk with at least one edge passes through `v`. */
  ghost predicate OnCycle<N(!new)>(g: set<(N, N)>, v: N) {
    Precedes(g, v, v)
  }

  ghost predicate Acyclic<N(!new)>(g: set<(N, N)>) {
    forall v :: !OnCycle(g, v)
  }

  /** Nothing upstream of `v` (nor `v` itself) lies on a cycle. */
  ghost predicate AcyclicAbove<N(!new)>(g: set<(N, N)>, v: N) {
    forall u :: Reaches(g, u, v) ==> !OnCycle(g, u)
  }

  /** `r` is the number of edges of the longest walk that ends at `v`. */
  ghost predicate LongestAt<N(!new)>(g: set<(N, N)>, v: N, r: nat) {
    && (exists a :: Walk(g, a, v, r))
    && (forall a, n: nat :: Walk(g, a, v, n) ==> n <= r)
  }

  lemma {:induction false} WalkConcat<N(!new)>(g: set<(N, N)>, a: N, b: N, c: N, m: nat, n: nat)
    requires Walk(g, a, b, m) && Walk(g, b, c, n)
    ensures Walk(g, a, c, m + n)
    decreases n
  {
    if n == 0 {
    } else {
      var d :| Walk(g, b, d, n - 1) && (d, c) in g;
      WalkConcat(g, a, b, d, m, n - 1);
      assert Walk(g, a, d, m + n - 1);
    }
  }

  lemma ReachesSelf<N(!new)>(g: set<(N, N)>, a: N)
    ensures Reaches(g, a, a)
  {
    assert Walk(g, a, a, 0);
  }

  lemma ReachesTrans<N(!new)>(g: set<(N, N)>, a: N, b: N, c: N)
    requires Reaches(g, a, b) && Reaches(g, b, c)
    ensures Reaches(g, a, c)
  {
    var m: nat :| Walk(g, a, b, m);
    var n: nat :| Walk(g, b, c, n);
    WalkConcat(g, a, b, c, m, n);
  }

  lemma EdgeWalk<N(!new)>(g: set<(N, N)>, a: N, b: N)
    requires (a, b) in g
    ensures Walk(g, a, b, 1) && Reaches(g, a, b)
  {
    assert Walk(g, a, a, 0);
    assert Walk(g, a, b, 1);
  }

  lemma ReachesStep<N(!new)>(g: set<(N, N)>, a: N, b: N, c: N)
    requires Reaches(g, a, b) && (b, c) in g
    ensures Reaches(g, a, c)
  {
    EdgeWalk(g, b, c);
    ReachesTrans(g, a, b, c);
  }

  lemma EdgePrecedes<N(!new)>(g: set<(N, N)>, a: N, b: N, c: N)
    requires (a, b) in g && (b == c || Precedes(g, b, c))
    ensures Precedes(g, a, c)
  {
    EdgeWalk(g, a, b);
    if b != c {
      var n: nat :| n > 0 && Walk(g, b, c, n);
      WalkConcat(g, a, b, c, 1, n);
    }
  }

  lemma EdgeThenReachCycles<N(!new)>(g: set<(N, N)>, a: N, b: N)
    requires (a, b) in g && Reaches(g, b, a)
    ensures OnCycle(g, a)
  {
    EdgeWalk(g, a, b);
    var n: nat :| Walk(g, b, a, n);
    WalkConcat(g, a, b, a, 1, n);
  }

  /** A set that contains `a` and is closed under the edges contains everything `a` reaches. */
  lemma {:induction false} ClosedContainsWalk<N(!new)>(g: set<(N, N)>, s: set<N>, a: N, b: N, n: nat)
    requires a in s && (forall x, y :: x in s && (x, y) in g ==> y in s)
    requires Walk(g, a, b, n)
    ensures b in s
    decreases n
  {
    if n == 0 {
    } else {
      var m :| Walk(g, a, m, n - 1) && (m, b) in g;
      ClosedContainsWalk(g, s, a, m, n - 1);
    }
  }

  lemma ClosedContainsReachable<N(!new)>(g: set<(N, N)>, s: set<N>, a: N, b: N)
    requires a in s && (forall x, y :: x in s && (x, y) in g ==> y in s)
    requires Reaches(g, a, b)
    ensures b in s
  {
    var n: nat :| Walk(g, a, b, n);
    ClosedContainsWalk(g, s, a, b, n);
  }

  /** A numbering that strictly increases along every edge leaves no room for a cycle. */
  lemma {:induction false} IncreasingWalk<N(!new)>(g: set<(N, N)>, f: map<N, nat>, a: N, b: N, n: nat)
    requires forall x, y :: (x, y) in g ==> x in f && y in f && f[x] < f[y]
    requires Walk(g, a, b, n) && n > 0
    ensures a in f && b in f && f[a] + n <= f[b]
    decreases n
  {
    var m :| Walk(g, a, m, n - 1) && (m, b) in g;
    if n > 1 {
      IncreasingWalk(g, f, a, m, n - 1);
    } else {
      assert a == m;
    }
  }

  lemma IncreasingIsAcyclic<N(!new)>(g: set<(N, N)>, f: map<N, nat>)
    requires forall x, y :: (x, y) in g ==> x in f && y in f && f[x] < f[y]
    ensures Acyclic(g)
  {
    forall v ensures !OnCycle(g, v) {
      if OnCycle(g, v) {
        var n: nat :| n > 0 && Walk(g, v, v, n);
        IncreasingWalk(g, f, v, v, n);
      }
    }
  }

  /** The longest walk into `v` is one edge more than the longest into some predecessor. */
  lemma LongestFromPredecessors<N(!new)>(g: set<(N, N)>, v: N, f: map<N, nat>, r: nat)
    requires forall p :: (p, v) in g ==> p in f && LongestAt(g, p, f[p]) && f[p] < r
    requires r > 0 ==> exists p :: (p, v) in g && f[p] + 1 == r
    ensures LongestAt(g, v, r)
  {
    if r == 0 {
      assert Walk(g, v, v, 0);
    } else {
      var p :| (p, v) in g && f[p] + 1 == r;
      var a :| Walk(g, a, p, f[p]);
      assert Walk(g, a, p, r - 1);
      assert Walk(g, a, v, r);
    }
    forall a, n: nat | Walk(g, a, v, n) ensures n <= r {
      if n > 0 {
        var m :| Walk(g, a, m, n - 1) && (m, v) in g;
        assert n - 1 <= f[m];
      }
    }
  }

  lemma AcyclicAbovePredecessor<N(!new)>(g: set<(N, N)>, p: N, v: N)
    requires AcyclicAbove(g, v) && (p, v) in g
    ensures AcyclicAbove(g, p) && !OnCycle(g, p)
  {
    EdgeWalk(g, p, v);
    forall u | Reaches(g, u, p) ensures !OnCycle(g, u) {
      ReachesTrans(g, u, p, v);
    }
    ReachesSelf(g, p);
  }
}
