/** The host language's stable `sort` with a comparator, as far as the layout relies on it. */
module StableSorting {

  /** What the language demands of a comparator: its sign is a total preorder. */
  ghost predicate Consistent<T(!new)>(cmp: (T, T) -> int) {
    && (forall a :: cmp(a, a) == 0)
    && (forall a, b :: cmp(a, b) < 0 <==> cmp(b, a) > 0)
    && (forall a, b, c :: cmp(a, b) <= 0 && cmp(b, c) <= 0 ==> cmp(a, c) <= 0)
  }

  function Insert<T>(cmp: (T, T) -> int, s: seq<T>, x: T): (r: seq<T>)
    ensures multiset(r) == multiset(s) + multiset{x} && |r| == |s| + 1
  {
    if s == [] then [x]
    else
      var n := |s| - 1;
      assert s == s[..n] + [s[n]];
      if cmp(s[n], x) <= 0 then s + [x] else Insert(cmp, s[..n], x) + [s[n]]
  }

  function StableSort<T>(cmp: (T, T) -> int, s: seq<T>): (r: seq<T>)
    ensures multiset(r) == multiset(s) && |r| == |s|
  {
    if s == [] then []
    else
      var n := |s| - 1;
      assert s == s[..n] + [s[n]];
      Insert(cmp, StableSort(cmp, s[..n]), s[n])
  }

  /** Some occurrence of `a` comes before some occurrence of `b`. */
  ghost predicate Earlier<T>(s: seq<T>, a: T, b: T) {
    exists i, j :: 0 <= i < j < |s| && s[i] == a && s[j] == b
  }

  /** `a` is placed before `b`: it compares lower, or it compares equal and came first. */
  ghost predicate Placed<T>(cmp: (T, T) -> int, s: seq<T>, a: T, b: T) {
    cmp(a, b) < 0 || (cmp(a, b) == 0 && Earlier(s, a, b))
  }

  /** `t` is ordered, equal elements keeping the order they have in `s`. */
  ghost predicate Ordered<T>(cmp: (T, T) -> int, s: seq<T>, t: seq<T>) {
    forall i, j :: 0 <= i < j < |t| ==> Placed(cmp, s, t[i], t[j])
  }

  lemma OrderedSnoc<T>(cmp: (T, T) -> int, s: seq<T>, t: seq<T>, z: T)
    requires Ordered(cmp, s, t) && forall y :: y in t ==> Placed(cmp, s, y, z)
    ensures Ordered(cmp, s, t + [z])
  {
  }

  lemma {:induction false} InsertOrdered<T(!new)>(cmp: (T, T) -> int, s: seq<T>, t: seq<T>, x: T)
    requires Consistent(cmp) && Ordered(cmp, s, t)
    requires forall y :: y in t ==> Earlier(s, y, x)
    ensures Ordered(cmp, s, Insert(cmp, t, x))
    decreases |t|
  {
    if t != [] {
      var n := |t| - 1;
      var last := t[n];
      assert t == t[..n] + [last];
      forall y | y in t[..n] ensures Placed(cmp, s, y, last) {
        var i :| 0 <= i < n && t[i] == y;
        assert Placed(cmp, s, t[i], t[n]);
      }
      if cmp(last, x) <= 0 {
        forall y | y in t ensures Placed(cmp, s, y, x) {
          assert y == last || cmp(y, last) <= 0;
        }
        OrderedSnoc(cmp, s, t, x);
      } else {
        InsertOrdered(cmp, s, t[..n], x);
        var r := Insert(cmp, t[..n], x);
        forall y | y in r ensures Placed(cmp, s, y, last) {
          assert y in multiset(r);
        }
        OrderedSnoc(cmp, s, r, last);
      }
    }
  }

  lemma OrderedWider<T>(cmp: (T, T) -> int, s: seq<T>, t: seq<T>, x: T)
    requires Ordered(cmp, s, t)
    ensures Ordered(cmp, s + [x], t)
    ensures forall y :: y in s ==> Earlier(s + [x], y, x)
  {
    var w := s + [x];
    forall a, b | Earlier(s, a, b) ensures Earlier(w, a, b) {
      var i, j :| 0 <= i < j < |s| && s[i] == a && s[j] == b;
      assert w[i] == a && w[j] == b;
    }
    forall y | y in s ensures Earlier(w, y, x) {
      var i :| 0 <= i < |s| && s[i] == y;
      assert w[i] == y && w[|s|] == x;
    }
  }

  lemma {:induction false} SortIsOrdered<T(!new)>(cmp: (T, T) -> int, s: seq<T>)
    requires Consistent(cmp)
    ensures Ordered(cmp, s, StableSort(cmp, s))
  {
    if s != [] {
      var n := |s| - 1;
      var t := StableSort(cmp, s[..n]);
      SortIsOrdered(cmp, s[..n]);
      OrderedWider(cmp, s[..n], t, s[n]);
      assert s[..n] + [s[n]] == s;
      forall y | y in t ensures Earlier(s, y, s[n]) {
        assert y in multiset(t);
      }
      InsertOrdered(cmp, s, t, s[n]);
    }
  }
}
