/**
 The conformance runner's structural diff: which lines it reports, that it reports none exactly for
 equivalent values, and that masking at the pointers it reports removes every value and type line.
 */
module JsonDiff {
  import opened Text
  import opened JsonMasking

  predicate IsNumber(v: Json) {
    v.Int? || v.Num?
  }

  function AsFloat(v: Json): Float
    requires IsNumber(v)
  {
    if v.Int? then Finite(v.i as real) else v.f
  }

  /** The host language's `==` on numbers: by value across integers and floats, NaN unequal to all. */
  predicate SameNumber(a: Json, b: Json)
    requires IsNumber(a) && IsNumber(b)
  {
    AsFloat(a) == AsFloat(b) && !AsFloat(a).NaN?
  }

  predicate SameType(a: Json, b: Json) {
    match a
    case Null => b.Null?
    case Bool(_) => b.Bool?
    case Int(_) => b.Int?
    case Num(_) => b.Num?
    case Str(_) => b.Str?
    case List(_) => b.List?
    case Dict(_) => b.Dict?
  }

  datatype Kind = ValueDiffers(golden: Json, actual: Json) | TypeDiffers | MissingFromResponse | NotInGolden

  datatype Line = Line(where: string, kind: Kind)

  function Where(path: string): string {
    if path == "" then "<root>" else path
  }

  ghost function Diff(expected: Json, actual: Json, path: string): seq<Line>
    decreases expected, 2, 0
  {
    if IsNumber(expected) && IsNumber(actual) then
      if SameNumber(expected, actual) then [] else [Line(Where(path), ValueDiffers(expected, actual))]
    else if !SameType(expected, actual) then [Line(Where(path), TypeDiffers)]
    else if expected.Dict? then DiffKeys(expected, actual, Sorted(expected.fields.Keys + actual.fields.Keys), path)
    else if expected.List? then DiffItems(expected, actual, path, Longer(expected, actual))
    else if expected != actual then [Line(Where(path), ValueDiffers(expected, actual))]
    else []
  }

  ghost function DiffKeys(expected: Json, actual: Json, keys: seq<string>, path: string): seq<Line>
    requires expected.Dict? && actual.Dict?
    decreases expected, 1, |keys|
  {
    if keys == [] then []
    else
      var n := |keys| - 1;
      DiffKeys(expected, actual, keys[..n], path) + DiffKey(expected, actual, keys[n], path)
  }

  ghost function DiffKey(expected: Json, actual: Json, key: string, path: string): seq<Line>
    requires expected.Dict? && actual.Dict?
    decreases expected, 0, 0
  {
    var child := path + "/" + Escape(key);
    if key !in actual.fields then [Line(child, MissingFromResponse)]
    else if key !in expected.fields then [Line(child, NotInGolden)]
    else Diff(expected.fields[key], actual.fields[key], child)
  }

  function Longer(a: Json, b: Json): nat
    requires a.List? && b.List?
  {
    if |a.items| < |b.items| then |b.items| else |a.items|
  }

  ghost function DiffItems(expected: Json, actual: Json, path: string, n: nat): seq<Line>
    requires expected.List? && actual.List?
    decreases expected, 1, n
  {
    if n == 0 then []
    else DiffItems(expected, actual, path, n - 1) + DiffItem(expected, actual, n - 1, path)
  }

  ghost function DiffItem(expected: Json, actual: Json, index: nat, path: string): seq<Line>
    requires expected.List? && actual.List?
    decreases expected, 0, 0
  {
    var child := path + "/" + ToDecimal(index);
    if index >= |actual.items| then [Line(child, MissingFromResponse)]
    else if index >= |expected.items| then [Line(child, NotInGolden)]
    else Diff(expected.items[index], actual.items[index], child)
  }

  /** The recursive routine with its growing list of lines. */
  method RunDiff(expected: Json, actual: Json, path: string) returns (lines: seq<Line>)
    ensures lines == Diff(expected, actual, path)
    decreases expected
  {
    var where := if path == "" then "<root>" else path;
    if IsNumber(expected) && IsNumber(actual) {
      return if SameNumber(expected, actual) then [] else [Line(where, ValueDiffers(expected, actual))];
    }
    if !SameType(expected, actual) { return [Line(where, TypeDiffers)]; }
    if expected.Dict? {
      lines := [];
      var keys := SortKeys(expected.fields.Keys + actual.fields.Keys);
      for i := 0 to |keys|
        invariant lines == DiffKeys(expected, actual, keys[..i], path)
      {
        assert keys[..i + 1][..i] == keys[..i];
        var key := keys[i];
        var child := path + "/" + Escape(key);
        if key !in actual.fields {
          lines := lines + [Line(child, MissingFromResponse)];
        } else if key !in expected.fields {
          lines := lines + [Line(child, NotInGolden)];
        } else {
          var inner := RunDiff(expected.fields[key], actual.fields[key], child);
          lines := lines + inner;
        }
      }
      assert keys[..|keys|] == keys;
      return;
    }
    if expected.List? {
      lines := [];
      for index := 0 to Longer(expected, actual)
        invariant lines == DiffItems(expected, actual, path, index)
      {
        var child := path + "/" + ToDecimal(index);
        if index >= |actual.items| {
          lines := lines + [Line(child, MissingFromResponse)];
        } else if index >= |expected.items| {
          lines := lines + [Line(child, NotInGolden)];
        } else {
          var inner := RunDiff(expected.items[index], actual.items[index], child);
          lines := lines + inner;
        }
      }
      return;
    }
    return if expected != actual then [Line(where, ValueDiffers(expected, actual))] else [];
  }

  lemma {:induction false} DiffKeysHas(expected: Json, actual: Json, keys: seq<string>, path: string, line: Line)
    requires expected.Dict? && actual.Dict?
    ensures line in DiffKeys(expected, actual, keys, path) <==>
              exists k :: k in keys && line in DiffKey(expected, actual, k, path)
    decreases |keys|
  {
    hide Diff, DiffKey;
    if keys != [] {
      var n := |keys| - 1;
      DiffKeysHas(expected, actual, keys[..n], path, line);
      assert keys == keys[..n] + [keys[n]];
      assert DiffKeys(expected, actual, keys, path)
          == DiffKeys(expected, actual, keys[..n], path) + DiffKey(expected, actual, keys[n], path);
    }
  }

  lemma {:induction false} DiffItemsHas(expected: Json, actual: Json, path: string, n: nat, line: Line)
    requires expected.List? && actual.List?
    ensures line in DiffItems(expected, actual, path, n) <==>
              exists i: nat :: i < n && line in DiffItem(expected, actual, i, path)
    decreases n
  {
    hide Diff, DiffItem;
    if n > 0 {
      DiffItemsHas(expected, actual, path, n - 1, line);
      assert DiffItems(expected, actual, path, n)
          == DiffItems(expected, actual, path, n - 1) + DiffItem(expected, actual, n - 1, path);
    }
  }

  lemma {:induction false} ItemLineIsListed(a: Json, b: Json, path: string, n: nat, i: nat, line: Line)
    requires a.List? && b.List? && i < n && line in DiffItem(a, b, i, path)
    ensures line in DiffItems(a, b, path, n)
    decreases n
  {
    hide DiffItem;
    if i < n - 1 { ItemLineIsListed(a, b, path, n - 1, i, line); }
  }

  // ---------------------------------------------------------------- an empty diff means equivalence

  /** Equal up to numeric equality of numbers. */
  ghost predicate Equivalent(a: Json, b: Json)
    decreases a
  {
    if IsNumber(a) && IsNumber(b) then SameNumber(a, b)
    else
      match a
      case Dict(fields) =>
        b.Dict? && fields.Keys == b.fields.Keys && forall k :: k in fields ==> Equivalent(fields[k], b.fields[k])
      case List(items) =>
        b.List? && |items| == |b.items| && forall i :: 0 <= i < |items| ==> Equivalent(items[i], b.items[i])
      case _ => a == b
  }

  /** The diff is empty exactly for equivalent values. */
  lemma {:induction false} EmptyDiffIsEquivalence(expected: Json, actual: Json, path: string)
    ensures Diff(expected, actual, path) == [] <==> Equivalent(expected, actual)
    decreases expected, 1
  {
    if expected.Dict? && actual.Dict? {
      EmptyDictDiff(expected, actual, path);
    } else if expected.List? && actual.List? {
      EmptyListDiff(expected, actual, path);
    }
  }

  /**
   Numbers are compared by value across the two number types, a NaN equals nothing, and a boolean is
   not a number.
   */
  lemma NumbersCompareByValue(i: int, r: real, b: bool, v: Json, path: string)
    ensures Diff(Int(i), Num(Finite(r)), path) == [] <==> i as real == r
    ensures Diff(Num(Finite(r)), Int(i), path) == [] <==> i as real == r
    ensures Diff(Num(NaN), v, path) != [] && Diff(v, Num(NaN), path) != []
    ensures Diff(Bool(b), Int(i), path) == Diff(Int(i), Bool(b), path) == [Line(Where(path), TypeDiffers)]
  {
  }

  lemma {:induction false} EmptyDictDiff(expected: Json, actual: Json, path: string)
    requires expected.Dict? && actual.Dict?
    ensures Diff(expected, actual, path) == [] <==> Equivalent(expected, actual)
    decreases expected, 0
  {
    var keys := Sorted(expected.fields.Keys + actual.fields.Keys);
    assert Diff(expected, actual, path) == DiffKeys(expected, actual, keys, path);
    EmptyKeys(expected, actual, keys, path);
    forall k | k in keys ensures DiffKey(expected, actual, k, path) == [] <==> SameEntry(expected, actual, k) {
      if k in expected.fields && k in actual.fields {
        EmptyDiffIsEquivalence(expected.fields[k], actual.fields[k], path + "/" + Escape(k));
      }
    }
    hide Diff, DiffKeys, DiffKey;
    SameEntries(expected, actual);
  }

  ghost predicate SameEntry(a: Json, b: Json, k: string)
    requires a.Dict? && b.Dict?
  {
    k in a.fields && k in b.fields && Equivalent(a.fields[k], b.fields[k])
  }

  lemma SameEntries(a: Json, b: Json)
    requires a.Dict? && b.Dict?
    ensures Equivalent(a, b) <==> forall k :: k in a.fields || k in b.fields ==> SameEntry(a, b, k)
  {
    if forall k :: k in a.fields || k in b.fields ==> SameEntry(a, b, k) {
      assert a.fields.Keys == b.fields.Keys;
    }
  }

  lemma {:induction false} EmptyListDiff(expected: Json, actual: Json, path: string)
    requires expected.List? && actual.List?
    ensures Diff(expected, actual, path) == [] <==> Equivalent(expected, actual)
    decreases expected, 0
  {
    var n := Longer(expected, actual);
    assert Diff(expected, actual, path) == DiffItems(expected, actual, path, n);
    EmptyItems(expected, actual, path, n);
    forall i: nat | i < n
      ensures DiffItem(expected, actual, i, path) == [] <==>
              i < |expected.items| && i < |actual.items| && Equivalent(expected.items[i], actual.items[i])
    {
      if i < |expected.items| && i < |actual.items| {
        EmptyDiffIsEquivalence(expected.items[i], actual.items[i], path + "/" + ToDecimal(i));
      }
    }
    if Diff(expected, actual, path) == [] {
      SameLengths(expected, actual, path);
      forall i | 0 <= i < |expected.items| ensures Equivalent(expected.items[i], actual.items[i]) {
        assert DiffItem(expected, actual, i, path) == [];
      }
    }
    if Equivalent(expected, actual) {
      forall i: nat | i < n ensures DiffItem(expected, actual, i, path) == [] {
        assert Equivalent(expected.items[i], actual.items[i]);
      }
    }
  }

  lemma {:induction false} EmptyKeys(expected: Json, actual: Json, keys: seq<string>, path: string)
    requires expected.Dict? && actual.Dict?
    ensures DiffKeys(expected, actual, keys, path) == [] <==>
              forall k :: k in keys ==> DiffKey(expected, actual, k, path) == []
    decreases |keys|
  {
    hide Diff, DiffKey;
    if keys != [] {
      var n := |keys| - 1;
      EmptyKeys(expected, actual, keys[..n], path);
      assert keys == keys[..n] + [keys[n]];
      assert DiffKeys(expected, actual, keys, path)
          == DiffKeys(expected, actual, keys[..n], path) + DiffKey(expected, actual, keys[n], path);
    }
  }

  lemma {:induction false} EmptyItems(expected: Json, actual: Json, path: string, n: nat)
    requires expected.List? && actual.List?
    ensures DiffItems(expected, actual, path, n) == [] <==>
              forall i: nat :: i < n ==> DiffItem(expected, actual, i, path) == []
    decreases n
  {
    hide Diff, DiffItem;
    if n > 0 {
      EmptyItems(expected, actual, path, n - 1);
      assert DiffItems(expected, actual, path, n)
          == DiffItems(expected, actual, path, n - 1) + DiffItem(expected, actual, n - 1, path);
    }
  }

  lemma SameLengths(expected: Json, actual: Json, path: string)
    requires expected.List? && actual.List?
    requires forall i: nat :: i < Longer(expected, actual) ==> DiffItem(expected, actual, i, path) == []
    ensures |expected.items| == |actual.items|
  {
    if |expected.items| < |actual.items| {
      assert DiffItem(expected, actual, |expected.items|, path) != [];
    } else if |actual.items| < |expected.items| {
      assert DiffItem(expected, actual, |actual.items|, path) != [];
    }
  }

  // ---------------------------------------------------------------- equivalence

  lemma {:induction false} EquivalentSymmetric(a: Json, b: Json)
    ensures Equivalent(a, b) <==> Equivalent(b, a)
    decreases a
  {
    if a.Dict? && b.Dict? {
      forall k | k in a.fields && k in b.fields
        ensures Equivalent(a.fields[k], b.fields[k]) <==> Equivalent(b.fields[k], a.fields[k])
      {
        EquivalentSymmetric(a.fields[k], b.fields[k]);
      }
    } else if a.List? && b.List? {
      forall i | 0 <= i < |a.items| && i < |b.items|
        ensures Equivalent(a.items[i], b.items[i]) <==> Equivalent(b.items[i], a.items[i])
      {
        EquivalentSymmetric(a.items[i], b.items[i]);
      }
    }
  }

  lemma {:induction false} EquivalentTransitive(a: Json, b: Json, c: Json)
    requires Equivalent(a, b) && Equivalent(b, c)
    ensures Equivalent(a, c)
    decreases a
  {
    if a.Dict? {
      forall k | k in a.fields ensures Equivalent(a.fields[k], c.fields[k]) {
        EquivalentTransitive(a.fields[k], b.fields[k], c.fields[k]);
      }
    } else if a.List? {
      forall i | 0 <= i < |a.items| ensures Equivalent(a.items[i], c.items[i]) {
        EquivalentTransitive(a.items[i], b.items[i], c.items[i]);
      }
    }
  }

  /** Some number inside the value is NaN. */
  ghost predicate HasNaN(v: Json) {
    match v
    case Num(f) => f.NaN?
    case Dict(fields) => exists k :: k in fields && HasNaN(fields[k])
    case List(items) => exists i :: 0 <= i < |items| && HasNaN(items[i])
    case _ => false
  }

  /** A value is equivalent to itself exactly when no NaN occurs in it. */
  lemma {:induction false} EquivalentReflexive(a: Json)
    ensures Equivalent(a, a) <==> !HasNaN(a)
    decreases a
  {
    match a
    case Dict(fields) =>
      forall k | k in fields ensures Equivalent(fields[k], fields[k]) <==> !HasNaN(fields[k]) {
        EquivalentReflexive(fields[k]);
      }
    case List(items) =>
      forall i | 0 <= i < |items| ensures Equivalent(items[i], items[i]) <==> !HasNaN(items[i]) {
        EquivalentReflexive(items[i]);
      }
    case _ =>
  }

  lemma {:induction false} MaskKeysRespectsEquivalence(a: Json, b: Json, keys: set<string>)
    requires Equivalent(a, b)
    ensures Equivalent(MaskKeys(a, keys), MaskKeys(b, keys))
    decreases a
  {
    if a.Dict? {
      var x, y := MaskKeys(a, keys).fields, MaskKeys(b, keys).fields;
      forall k | k in x ensures Equivalent(x[k], y[k]) {
        if k !in keys { MaskKeysRespectsEquivalence(a.fields[k], b.fields[k], keys); }
      }
      assert x.Keys == a.fields.Keys == y.Keys;
    } else if a.List? {
      var x, y := MaskKeys(a, keys).items, MaskKeys(b, keys).items;
      forall i | 0 <= i < |x| ensures Equivalent(x[i], y[i]) {
        MaskKeysRespectsEquivalence(a.items[i], b.items[i], keys);
      }
    }
  }

  lemma {:induction false} MaskAtRespectsEquivalence(a: Json, b: Json, tokens: seq<string>)
    requires Equivalent(a, b)
    ensures Equivalent(MaskAt(a, tokens), MaskAt(b, tokens))
    decreases |tokens|
  {
    if tokens != [] {
      if a.Dict? {
        var x, y := MaskAt(a, tokens).fields, MaskAt(b, tokens).fields;
        forall k | k in x ensures Equivalent(x[k], y[k]) {
          MaskAtRespectsEquivalence(a.fields[k], b.fields[k], tokens[1..]);
        }
        assert x.Keys == a.fields.Keys == y.Keys;
      } else if a.List? {
        var x, y := MaskAt(a, tokens).items, MaskAt(b, tokens).items;
        forall i | 0 <= i < |x| ensures Equivalent(x[i], y[i]) {
          MaskAtRespectsEquivalence(a.items[i], b.items[i], tokens[1..]);
        }
      }
    }
  }

  lemma {:induction false} MaskPointersRespectEquivalence(a: Json, b: Json, pointers: seq<string>)
    requires Equivalent(a, b)
    ensures Equivalent(MaskPointers(a, pointers), MaskPointers(b, pointers))
    decreases |pointers|
  {
    if pointers != [] {
      var n := |pointers| - 1;
      MaskPointersRespectEquivalence(a, b, pointers[..n]);
      MaskAtRespectsEquivalence(MaskPointers(a, pointers[..n]), MaskPointers(b, pointers[..n]), Tokens(pointers[n]));
    }
  }

  /** Normalizing two equivalent bodies the same way leaves them equivalent. */
  lemma NormalizeRespectsEquivalence(a: Json, b: Json, keys: set<string>, pointers: seq<string>)
    requires Equivalent(a, b)
    ensures Equivalent(MaskPointers(MaskKeys(a, keys), pointers), MaskPointers(MaskKeys(b, keys), pointers))
  {
    MaskKeysRespectsEquivalence(a, b, keys);
    MaskPointersRespectEquivalence(MaskKeys(a, keys), MaskKeys(b, keys), pointers);
  }
}
