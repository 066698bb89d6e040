/**
 The layers of a policy in the console: everything it extends, directly or through others, in the
 order in which the layers are applied, so that the policy overrides all it extends.
 */
module CompositionChain {
  import opened Prelude
  import opened Graphs

  datatype Policy = Policy(name: string, parents: Option<seq<string>>)

  type Policies = map<string, Policy>

  function ParentsOf(policy: Policy): seq<string> {
    if policy.parents.Some? then policy.parents.value else []
  }

  /** The known part of the `extends` relation, directed from the extended policy to the extending one. */
  ghost function Layers(ps: Policies): set<(string, string)> {
    set child, parent | child in ps && parent in ParentsOf(ps[child]) && parent in ps :: (parent, child)
  }

  // ---------------------------------------------------------------- the walk

  /** The two collections the walk fills: what it has entered and what it has listed. */
  datatype Trail = Trail(visited: set<string>, chain: seq<string>)

  function Visit(ps: Policies, id: string, s: Trail): (t: Trail)
    ensures s.visited <= t.visited
    decreases ps.Keys - s.visited, 0
  {
    if id in s.visited then s
    else
      var marked := Trail(s.visited + {id}, s.chain);
      if id !in ps then marked
      else
        var t := VisitEach(ps, ParentsOf(ps[id]), marked);
        Trail(t.visited, t.chain + [id])
  }

  function VisitEach(ps: Policies, ids: seq<string>, s: Trail): (t: Trail)
    ensures s.visited <= t.visited
    decreases ps.Keys - s.visited, |ids|
  {
    if ids == [] then s else VisitEach(ps, ids[1..], Visit(ps, ids[0], s))
  }

  class Composer {
    const policies: Policies
    var visited: set<string>
    var chain: seq<Policy>
    ghost var ids: seq<string>

    ghost predicate Valid()
      reads this
    {
      |chain| == |ids| && forall i :: 0 <= i < |ids| ==> ids[i] in policies && chain[i] == policies[ids[i]]
    }

    ghost function Current(): Trail
      reads this
    {
      Trail(visited, ids)
    }

    constructor (policies: Policies)
      ensures Valid() && Current() == Trail({}, []) && this.policies == policies
    {
      this.policies := policies;
      visited, chain, ids := {}, [], [];
    }

    method Enter(id: string)
      requires Valid()
      modifies this
      ensures Valid() && Current() == Visit(policies, id, old(Current()))
      decreases policies.Keys - visited
    {
      if id in visited { return; }
      visited := visited + {id};
      if id !in policies { return; }
      var parents := ParentsOf(policies[id]);
      ghost var marked := Current();
      for i := 0 to |parents|
        invariant Valid() && marked.visited <= visited
        invariant VisitEach(policies, parents[i..], Current()) == VisitEach(policies, parents, marked)
      {
        assert parents[i..][0] == parents[i] && parents[i..][1..] == parents[i + 1..];
        Enter(parents[i]);
      }
      chain := chain + [policies[id]];
      ids := ids + [id];
    }
  }

  // ---------------------------------------------------------------- what the walk keeps

  /** `p` stands before position `j` of the chain. */
  ghost predicate Before(chain: seq<string>, p: string, j: int) {
    exists i :: 0 <= i < j && i < |chain| && chain[i] == p
  }

  /** Every known parent of a listed policy was entered, and stands earlier unless a cycle joins the two. */
  ghost predicate Layered(ps: Policies, s: Trail) {
    forall j, p :: 0 <= j < |s.chain| && (p, s.chain[j]) in Layers(ps) ==>
      p in s.visited && (Before(s.chain, p, j) || Reaches(Layers(ps), s.chain[j], p))
  }

  /** The walk is inside the policies of `open`; everything else known that was entered is listed, once. */
  ghost predicate Sound(ps: Policies, s: Trail, open: set<string>) {
    && Distinct(s.chain)
    && (forall k :: k in ps && k in s.visited <==> k in s.chain || k in open)
    && (forall k :: k in open ==> k !in s.chain)
    && Layered(ps, s)
  }

  ghost predicate Above(ps: Policies, id: string, open: set<string>) {
    forall k :: k in open ==> Reaches(Layers(ps), id, k)
  }

  /** What a step from `s` to `t` below `id` may add. */
  ghost predicate Grows(ps: Policies, id: string, s: Trail, t: Trail) {
    && s.visited <= t.visited && s.chain <= t.chain
    && (forall k :: k in t.visited && k !in s.visited && k in ps ==> Reaches(Layers(ps), k, id))
  }

  lemma GrowsBelow(ps: Policies, p: string, id: string, s: Trail, t: Trail)
    requires Grows(ps, p, s, t) && (p in ps ==> Reaches(Layers(ps), p, id))
             && (p !in ps ==> t.visited <= s.visited + {p})
    ensures Grows(ps, id, s, t)
  {
    forall k | k in t.visited && k !in s.visited && k in ps ensures Reaches(Layers(ps), k, id) {
      if p in ps { ReachesTrans(Layers(ps), k, p, id); }
    }
  }

  lemma Listing(ps: Policies, id: string, s: Trail, open: set<string>)
    requires Sound(ps, s, open + {id}) && id in ps && id !in open && Above(ps, id, open)
    requires forall p :: (p, id) in Layers(ps) ==> p in s.visited
    ensures Sound(ps, Trail(s.visited, s.chain + [id]), open)
  {
    var t := Trail(s.visited, s.chain + [id]);
    forall j, p | 0 <= j < |t.chain| && (p, t.chain[j]) in Layers(ps)
      ensures p in t.visited && (Before(t.chain, p, j) || Reaches(Layers(ps), t.chain[j], p))
    {
      if j < |s.chain| {
        if Before(s.chain, p, j) {
          var i :| 0 <= i < j && s.chain[i] == p;
          assert t.chain[i] == p;
        }
      } else {
        if p in s.chain {
          var i :| 0 <= i < |s.chain| && s.chain[i] == p;
          assert t.chain[i] == p;
        } else if p == id {
          ReachesSelf(Layers(ps), id);
        }
      }
    }
  }

  lemma {:induction false} VisitKeeps(ps: Policies, id: string, s: Trail, open: set<string>)
    requires Sound(ps, s, open) && (id in ps ==> Above(ps, id, open))
    ensures var t := Visit(ps, id, s); Sound(ps, t, open) && Grows(ps, id, s, t) && id in t.visited
    ensures id !in ps ==> Visit(ps, id, s).visited == s.visited + {id}
    ensures id in ps && id !in s.visited ==>
              Visit(ps, id, s).chain != [] && Visit(ps, id, s).chain[|Visit(ps, id, s).chain| - 1] == id
    decreases ps.Keys - s.visited, 0
  {
    if id in s.visited {
    } else {
      var marked := Trail(s.visited + {id}, s.chain);
      ReachesSelf(Layers(ps), id);
      if id in ps {
        var t := VisitEach(ps, ParentsOf(ps[id]), marked);
        VisitEachKeeps(ps, id, ParentsOf(ps[id]), marked, open);
        Listing(ps, id, t, open);
      }
    }
  }

  lemma {:induction false} VisitEachKeeps(ps: Policies, id: string, parents: seq<string>, s: Trail, open: set<string>)
    requires id in ps && id !in open && Sound(ps, s, open + {id}) && Above(ps, id, open)
    requires forall p :: p in parents ==> p in ParentsOf(ps[id])
    ensures var t := VisitEach(ps, parents, s);
            Sound(ps, t, open + {id}) && Grows(ps, id, s, t) && forall p :: p in parents ==> p in t.visited
    decreases ps.Keys - s.visited, |parents|
  {
    if parents != [] {
      var p := parents[0];
      if p in ps { AboveParent(ps, p, id, open); }
      VisitKeeps(ps, p, s, open + {id});
      var m := Visit(ps, p, s);
      GrowsBelow(ps, p, id, s, m);
      VisitEachKeeps(ps, id, parents[1..], m, open);
    }
  }

  lemma AboveParent(ps: Policies, p: string, id: string, open: set<string>)
    requires id in ps && p in ps && p in ParentsOf(ps[id]) && Above(ps, id, open)
    ensures Above(ps, p, open + {id}) && Reaches(Layers(ps), p, id)
  {
    EdgeWalk(Layers(ps), p, id);
    forall k | k in open ensures Reaches(Layers(ps), p, k) {
      ReachesTrans(Layers(ps), p, id, k);
    }
  }

  // ---------------------------------------------------------------- what the chain is

  function Chain(ps: Policies, root: string): seq<string> {
    Visit(ps, root, Trail({}, [])).chain
  }

  /** The layers of `root`: everything known that it extends through known policies, once, itself last. */
  ghost predicate IsChain(ps: Policies, root: string, ids: seq<string>) {
    && Distinct(ids)
    && (forall k :: k in ids <==> root in ps && k in ps && Reaches(Layers(ps), k, root))
    && (root in ps ==> ids != [] && ids[|ids| - 1] == root)
  }

  lemma Start(ps: Policies, root: string)
    ensures Sound(ps, Visit(ps, root, Trail({}, [])), {})
            && Grows(ps, root, Trail({}, []), Visit(ps, root, Trail({}, [])))
    ensures root in Visit(ps, root, Trail({}, [])).visited
    ensures root in ps ==> Chain(ps, root) != [] && Chain(ps, root)[|Chain(ps, root)| - 1] == root
  {
    VisitKeeps(ps, root, Trail({}, []), {});
  }

  /** Every known parent of a listed policy is listed. */
  ghost predicate Closed(ps: Policies, chain: seq<string>) {
    forall p, c :: c in chain && (p, c) in Layers(ps) ==> p in chain
  }

  lemma FinishedIsClosed(ps: Policies, t: Trail)
    requires Sound(ps, t, {})
    ensures Closed(ps, t.chain)
  {
    forall p, c | c in t.chain && (p, c) in Layers(ps) ensures p in t.chain {
      var j :| 0 <= j < |t.chain| && t.chain[j] == c;
    }
  }

  lemma {:induction false} UpstreamIsListed(ps: Policies, chain: seq<string>, a: string, b: string, n: nat)
    requires Closed(ps, chain) && b in chain && Walk(Layers(ps), a, b, n)
    ensures a in chain
    decreases n
  {
    hide Layers;
    if n > 0 {
      var m :| Walk(Layers(ps), a, m, n - 1) && (m, b) in Layers(ps);
      UpstreamIsListed(ps, chain, a, m, n - 1);
    }
  }

  lemma ChainIsComplete(ps: Policies, root: string)
    ensures IsChain(ps, root, Chain(ps, root))
  {
    var t := Visit(ps, root, Trail({}, []));
    Start(ps, root);
    FinishedIsClosed(ps, t);
    if root in ps {
      forall k ensures k in t.chain <==> k in ps && Reaches(Layers(ps), k, root) {
        if k in ps && Reaches(Layers(ps), k, root) {
          var n: nat :| Walk(Layers(ps), k, root, n);
          UpstreamIsListed(ps, t.chain, k, root, n);
        }
      }
    }
  }

  /** On any graph, a policy stands before one that extends it unless a cycle joins the two. */
  lemma LayersComeFirst(ps: Policies, root: string, p: string, j: int)
    requires 0 <= j < |Chain(ps, root)| && (p, Chain(ps, root)[j]) in Layers(ps)
    ensures p in Chain(ps, root)
    ensures Before(Chain(ps, root), p, j) || Reaches(Layers(ps), Chain(ps, root)[j], p)
  {
    Start(ps, root);
  }

  /** Where no cycle lies upstream of a listed policy, all its transitive ancestors stand before it. */
  lemma {:induction false} AncestorsComeFirst(ps: Policies, root: string, a: string, j: int, n: nat)
    requires 0 <= j < |Chain(ps, root)| && AcyclicAbove(Layers(ps), Chain(ps, root)[j])
    requires n > 0 && Walk(Layers(ps), a, Chain(ps, root)[j], n)
    ensures Before(Chain(ps, root), a, j)
    decreases n
  {
    var g, chain := Layers(ps), Chain(ps, root);
    var m :| Walk(g, a, m, n - 1) && (m, chain[j]) in g;
    LayersComeFirst(ps, root, m, j);
    AcyclicAbovePredecessor(g, m, chain[j]);
    if Reaches(g, chain[j], m) { EdgeThenReachCycles(g, m, chain[j]); }
    var i :| 0 <= i < j && chain[i] == m;
    if n > 1 {
      AncestorsComeFirst(ps, root, a, i, n - 1);
      var k :| 0 <= k < i && chain[k] == a;
      assert Before(chain, a, j);
    }
  }

  /** Every transitive ancestor of the policy at `j` stands before it. */
  ghost predicate AncestorsBefore(ps: Policies, chain: seq<string>, j: int)
    requires 0 <= j < |chain|
  {
    forall a :: Precedes(Layers(ps), a, chain[j]) ==> Before(chain, a, j)
  }

  /** The order the chain is meant to have holds throughout exactly when no cycle lies among what the root extends. */
  lemma AncestorsFirstIffAcyclic(ps: Policies, root: string)
    ensures (forall j :: 0 <= j < |Chain(ps, root)| ==> AncestorsBefore(ps, Chain(ps, root), j)) <==>
            (root in ps ==> AcyclicAbove(Layers(ps), root))
  {
    hide Chain;
    var g, chain := Layers(ps), Chain(ps, root);
    ChainIsComplete(ps, root);
    if root in ps && AcyclicAbove(g, root) {
      forall j | 0 <= j < |chain| ensures AncestorsBefore(ps, chain, j) {
        assert chain[j] in chain;
        UpstreamAcyclic(g, chain[j], root);
        forall a | Precedes(g, a, chain[j]) ensures Before(chain, a, j) {
          var n: nat :| n > 0 && Walk(g, a, chain[j], n);
          AncestorsComeFirst(ps, root, a, j, n);
        }
      }
    }
    if u :| root in ps && Reaches(g, u, root) && OnCycle(g, u) {
      assert u in chain;
      var j :| 0 <= j < |chain| && chain[j] == u;
      assert !Before(chain, chain[j], j);
      assert !AncestorsBefore(ps, chain, j);
    }
  }

  lemma UpstreamAcyclic(g: set<(string, string)>, v: string, root: string)
    requires AcyclicAbove(g, root) && Reaches(g, v, root)
    ensures AcyclicAbove(g, v)
  {
    forall u | Reaches(g, u, v) ensures !OnCycle(g, u) {
      ReachesTrans(g, u, v, root);
    }
  }

  // ---------------------------------------------------------------- the order is the unfolded one

  /** The `extends` tree below `id`, written out in full to depth `n`, ancestors first. */
  function Unfold(ps: Policies, id: string, n: nat): seq<string>
    decreases n, 0
  {
    if n == 0 || id !in ps then [] else UnfoldEach(ps, ParentsOf(ps[id]), n - 1) + [id]
  }

  function UnfoldEach(ps: Policies, ids: seq<string>, n: nat): seq<string>
    decreases n, 1 + |ids|
  {
    if ids == [] then [] else Unfold(ps, ids[0], n) + UnfoldEach(ps, ids[1..], n)
  }

  /** `chain` followed by what of `s` it does not yet hold, each in the place of its first occurrence. */
  function Onto(chain: seq<string>, s: seq<string>): seq<string>
    decreases |s|
  {
    if s == [] then chain else Onto(if s[0] in chain then chain else chain + [s[0]], s[1..])
  }

  lemma {:induction false} OntoConcat(chain: seq<string>, s: seq<string>, t: seq<string>)
    ensures Onto(chain, s + t) == Onto(Onto(chain, s), t)
    decreases |s|
  {
    if s == [] {
      assert s + t == t;
    } else {
      assert (s + t)[1..] == s[1..] + t;
      OntoConcat(if s[0] in chain then chain else chain + [s[0]], s[1..], t);
    }
  }

  lemma {:induction false} OntoHeld(chain: seq<string>, s: seq<string>)
    requires forall k :: k in s ==> k in chain
    ensures Onto(chain, s) == chain
    decreases |s|
  {
    if s != [] { OntoHeld(chain, s[1..]); }
  }

  ghost predicate NoWalk(ps: Policies, id: string, n: nat) {
    forall a :: !Walk(Layers(ps), a, id, n)
  }

  /** Nothing the walk is inside of is upstream of `id`. */
  ghost predicate Clear(ps: Policies, id: string, open: set<string>) {
    forall k :: k in open ==> !Reaches(Layers(ps), k, id)
  }

  lemma {:induction false} UnfoldHeld(ps: Policies, id: string, n: nat, chain: seq<string>)
    requires Closed(ps, chain) && (id in ps ==> id in chain)
    ensures forall k :: k in Unfold(ps, id, n) ==> k in chain
    decreases n, 0
  {
    if n > 0 && id in ps {
      assert forall p :: p in ParentsOf(ps[id]) && p in ps ==> (p, id) in Layers(ps);
      UnfoldEachHeld(ps, ParentsOf(ps[id]), n - 1, chain);
    }
  }

  lemma {:induction false} UnfoldEachHeld(ps: Policies, ids: seq<string>, n: nat, chain: seq<string>)
    requires Closed(ps, chain) && forall p :: p in ids && p in ps ==> p in chain
    ensures forall k :: k in UnfoldEach(ps, ids, n) ==> k in chain
    decreases n, 1 + |ids|
  {
    if ids != [] {
      UnfoldHeld(ps, ids[0], n, chain);
      UnfoldEachHeld(ps, ids[1..], n, chain);
    }
  }

  lemma {:induction false} CyclePumps(ps: Policies, id: string, n: nat)
    requires OnCycle(Layers(ps), id)
    ensures exists a :: Walk(Layers(ps), a, id, n)
    decreases n
  {
    var g := Layers(ps);
    if n == 0 {
      assert Walk(g, id, id, 0);
    } else {
      var k: nat :| k > 0 && Walk(g, id, id, k);
      var m :| Walk(g, id, m, k - 1) && (m, id) in g;
      assert Reaches(g, id, m);
      EdgeThenReachCycles(g, m, id);
      CyclePumps(ps, m, n - 1);
      var a :| Walk(g, a, m, n - 1);
      assert Walk(g, a, id, n);
    }
  }

  lemma NoWalkParent(ps: Policies, p: string, id: string, n: nat, open: set<string>)
    requires n > 0 && NoWalk(ps, id, n) && (p, id) in Layers(ps) && Clear(ps, id, open)
    ensures NoWalk(ps, p, n - 1) && Clear(ps, p, open + {id})
  {
    var g := Layers(ps);
    var m := n - 1;
    if a :| Walk(g, a, p, m) { assert Walk(g, a, id, n); }
    forall k | k in open + {id} ensures !Reaches(g, k, p) {
      if Reaches(g, k, p) {
        ReachesStep(g, k, p, id);
        if k == id {
          EdgePrecedesCycle(g, p, id);
          CyclePumps(ps, id, n);
        }
      }
    }
  }

  lemma EdgePrecedesCycle(g: set<(string, string)>, p: string, id: string)
    requires (p, id) in g && Reaches(g, id, p)
    ensures OnCycle(g, id)
  {
    var n: nat :| Walk(g, id, p, n);
    assert Walk(g, id, id, n + 1);
  }

  lemma {:induction false} VisitUnfolds(ps: Policies, id: string, s: Trail, open: set<string>, n: nat)
    requires Sound(ps, s, open) && (id in ps ==> Above(ps, id, open) && Clear(ps, id, open) && NoWalk(ps, id, n))
             && Closed(ps, s.chain)
    ensures Closed(ps, Visit(ps, id, s).chain) && Visit(ps, id, s).chain == Onto(s.chain, Unfold(ps, id, n))
    decreases ps.Keys - s.visited, 0
  {
    if id in ps {
      ReachesSelf(Layers(ps), id);
      assert Walk(Layers(ps), id, id, 0);
      if id in s.visited {
        UnfoldHeld(ps, id, n, s.chain);
        OntoHeld(s.chain, Unfold(ps, id, n));
      } else {
        var parents, marked := ParentsOf(ps[id]), Trail(s.visited + {id}, s.chain);
        var t := VisitEach(ps, parents, marked);
        VisitEachKeeps(ps, id, parents, marked, open);
        VisitEachUnfolds(ps, id, parents, marked, open, n);
        OntoConcat(s.chain, UnfoldEach(ps, parents, n - 1), [id]);
        assert Onto(t.chain, [id]) == t.chain + [id];
        forall p | (p, id) in Layers(ps) ensures p in t.chain {
          NoWalkParent(ps, p, id, n, open);
          ReachesSelf(Layers(ps), p);
        }
      }
    }
  }

  lemma {:induction false} VisitEachUnfolds(ps: Policies, id: string, parents: seq<string>, s: Trail, open: set<string>,
                                            n: nat)
    requires id in ps && id !in open && Sound(ps, s, open + {id}) && Above(ps, id, open) && Clear(ps, id, open)
    requires n > 0 && NoWalk(ps, id, n) && Closed(ps, s.chain)
    requires forall p :: p in parents ==> p in ParentsOf(ps[id])
    ensures Closed(ps, VisitEach(ps, parents, s).chain)
    ensures VisitEach(ps, parents, s).chain == Onto(s.chain, UnfoldEach(ps, parents, n - 1))
    decreases ps.Keys - s.visited, |parents|
  {
    if parents != [] {
      var p := parents[0];
      if p in ps {
        AboveParent(ps, p, id, open);
        NoWalkParent(ps, p, id, n, open);
      }
      VisitKeeps(ps, p, s, open + {id});
      VisitUnfolds(ps, p, s, open + {id}, n - 1);
      VisitEachUnfolds(ps, id, parents[1..], Visit(ps, p, s), open, n);
      OntoConcat(s.chain, Unfold(ps, p, n - 1), UnfoldEach(ps, parents[1..], n - 1));
    }
  }

  /** A walk into a listed policy has no more steps than policies stand before it, if no cycle lies upstream. */
  lemma {:induction false} WalksAreShort(ps: Policies, root: string, a: string, j: int, n: nat)
    requires 0 <= j < |Chain(ps, root)| && AcyclicAbove(Layers(ps), Chain(ps, root)[j])
    requires Walk(Layers(ps), a, Chain(ps, root)[j], n)
    ensures n <= j
    decreases n
  {
    hide Chain;
    var g, chain := Layers(ps), Chain(ps, root);
    if n > 0 {
      var m :| Walk(g, a, m, n - 1) && (m, chain[j]) in g;
      LayersComeFirst(ps, root, m, j);
      AcyclicAbovePredecessor(g, m, chain[j]);
      if Reaches(g, chain[j], m) { EdgeThenReachCycles(g, m, chain[j]); }
      var i :| 0 <= i < j && chain[i] == m;
      WalksAreShort(ps, root, a, i, n - 1);
    }
  }

  /**
   Where no cycle lies among what the root extends, the chain is the fully unfolded `extends` tree,
   ancestors first in declaration order, with every repetition after the first dropped. Unfolding to
   the length of the chain, or further, reaches all of it.
   */
  lemma {:induction false} ChainIsUnfolding(ps: Policies, root: string, n: nat)
    requires AcyclicAbove(Layers(ps), root) && n >= |Chain(ps, root)|
    ensures Chain(ps, root) == Onto([], Unfold(ps, root, n))
  {
    if root in ps {
      ChainIsComplete(ps, root);
      var last := |Chain(ps, root)| - 1;
      forall a ensures !Walk(Layers(ps), a, root, n) {
        if Walk(Layers(ps), a, root, n) { WalksAreShort(ps, root, a, last, n); }
      }
    }
    VisitUnfolds(ps, root, Trail({}, []), {}, n);
  }

  // ---------------------------------------------------------------- cyclic policies

  function Extending(name: string, parents: seq<string>): Policy { Policy(name, Some(parents)) }

  /** Two policies that extend each other: the root comes last although the other one extends it too. */
  lemma TwoPolicyCycle()
    ensures var ps := map["x" := Extending("x", ["y"]), "y" := Extending("y", ["x"])];
            Chain(ps, "x") == ["y", "x"] && Precedes(Layers(ps), "x", "y")
  {
    var ps := map["x" := Extending("x", ["y"]), "y" := Extending("y", ["x"])];
    var x, y := {"x"}, {"x", "y"};
    assert {} + {"x"} == x && x + {"y"} == y && ["y"][1..] == [] && ["x"][1..] == [];
    assert VisitEach(ps, ["x"], Trail(y, [])) == Trail(y, []) by {
      assert Visit(ps, "x", Trail(y, [])) == Trail(y, []);
    }
    assert Visit(ps, "y", Trail(x, [])) == Trail(y, ["y"]) by { assert [] + ["y"] == ["y"]; }
    assert VisitEach(ps, ["y"], Trail(x, [])) == Trail(y, ["y"]);
    assert ["y"] + ["x"] == ["y", "x"];
    assert ("x", "y") in Layers(ps);
    EdgeWalk(Layers(ps), "x", "y");
  }

  function Displaced(): Policies {
    map["x" := Extending("x", ["u", "v"]), "u" := Extending("u", ["w"]), "w" := Extending("w", ["x"]),
        "v" := Extending("v", [])]
  }

  /**
   A cycle can also displace a policy that is on none: "v" extends nothing and is an ancestor of "u",
   which extends "w", which extends the root, yet "u" stands first.
   */
  lemma CycleDisplacesAncestor()
    ensures Chain(Displaced(), "x") == ["w", "u", "v", "x"]
    ensures Precedes(Layers(Displaced()), "v", "u") && !OnCycle(Layers(Displaced()), "v")
  {
    var ps, g := Displaced(), Layers(Displaced());
    DisplacedWalk();
    assert ("v", "x") in g && ("x", "w") in g && ("w", "u") in g;
    EdgeWalk(g, "v", "x");
    assert Walk(g, "v", "w", 2) && Walk(g, "v", "u", 3);
    if OnCycle(g, "v") { CycleEnters(g, "v"); }
  }

  lemma CycleEnters(g: set<(string, string)>, v: string)
    requires OnCycle(g, v)
    ensures exists m :: (m, v) in g
  {
    var n: nat :| n > 0 && Walk(g, v, v, n);
    var m :| Walk(g, v, m, n - 1) && (m, v) in g;
  }

  lemma DisplacedWalk()
    ensures Chain(Displaced(), "x") == ["w", "u", "v", "x"]
  {
    var ps := Displaced();
    var x, xu, xuw, all := {"x"}, {"x", "u"}, {"x", "u", "w"}, {"x", "u", "w", "v"};
    assert {} + {"x"} == x && x + {"u"} == xu && xu + {"w"} == xuw && xuw + {"v"} == all;
    assert ["x"][1..] == [] && ["w"][1..] == [] && ["v"][1..] == [] && ["u", "v"][1..] == ["v"];
    assert VisitEach(ps, ["x"], Trail(xuw, [])) == Trail(xuw, []) by {
      assert Visit(ps, "x", Trail(xuw, [])) == Trail(xuw, []);
    }
    assert Visit(ps, "w", Trail(xu, [])) == Trail(xuw, ["w"]) by { assert [] + ["w"] == ["w"]; }
    assert VisitEach(ps, ["w"], Trail(xu, [])) == Trail(xuw, ["w"]);
    assert Visit(ps, "u", Trail(x, [])) == Trail(xuw, ["w", "u"]) by { assert ["w"] + ["u"] == ["w", "u"]; }
    assert Visit(ps, "v", Trail(xuw, ["w", "u"])) == Trail(all, ["w", "u", "v"]) by {
      assert ["w", "u"] + ["v"] == ["w", "u", "v"];
    }
    assert VisitEach(ps, ["v"], Trail(xuw, ["w", "u"])) == Trail(all, ["w", "u", "v"]);
    assert VisitEach(ps, ["u", "v"], Trail(x, [])) == Trail(all, ["w", "u", "v"]);
    assert ["w", "u", "v"] + ["x"] == ["w", "u", "v", "x"];
  }

  function Definitions(ps: Policies, ids: seq<string>): seq<Policy>
    requires forall k :: k in ids ==> k in ps
  {
    seq(|ids|, i requires 0 <= i < |ids| => ps[ids[i]])
  }

  method ComposeChain(ps: Policies, root: string) returns (chain: seq<Policy>)
    ensures IsChain(ps, root, Chain(ps, root))
    ensures chain == Definitions(ps, Chain(ps, root))
  {
    var composer := new Composer(ps);
    composer.Enter(root);
    ChainIsComplete(ps, root);
    chain := composer.chain;
  }
}
