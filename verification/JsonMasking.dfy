/**
 The conformance runner's normalizer: volatile values are replaced by a marker, either under a key
 wherever it appears or at a JSON Pointer in which `*` matches every key or index.
 */
module JsonMasking {
  import opened Text

  /** A float of the host language: NaN is unequal to itself. */
  datatype Float = Finite(value: real) | PosInf | NegInf | NaN

  datatype Json =
    | Null
    | Bool(b: bool)
    | Int(i: int)
    | Num(f: Float)
    | Str(s: string)
    | List(items: seq<Json>)
    | Dict(fields: map<string, Json>)

  const MASK: Json := Str("<normalized>")

  function MaskKeys(value: Json, keys: set<string>): Json {
    match value
    case Dict(fields) => Dict(map k | k in fields :: if k in keys then MASK else MaskKeys(fields[k], keys))
    case List(items) => List(seq(|items|, i requires 0 <= i < |items| => MaskKeys(items[i], keys)))
    case _ => value
  }

  /** The token selects index `i` of a list. */
  predicate SelectsIndex(token: string, i: nat) {
    token == "*" || (IsDigits(token) && FromDecimal(token) == i)
  }

  /** The token selects the entry `k` of an object. */
  predicate SelectsKey(token: string, k: string) {
    token == "*" || token == k
  }

  /** `apply`: replace what the tokens lead to, and leave everything else, missing paths included, alone. */
  function MaskAt(node: Json, tokens: seq<string>): Json
    decreases |tokens|
  {
    if tokens == [] then MASK
    else
      var head, rest := tokens[0], tokens[1..];
      match node
      case Dict(fields) => Dict(map k | k in fields :: if SelectsKey(head, k) then MaskAt(fields[k],
            rest) else fields[k])
      case List(items) =>
        List(seq(|items|, i requires 0 <= i < |items| => if SelectsIndex(head, i) then MaskAt(items[i],
              rest) else items[i]))
      case _ => node
  }

  function UnescapeEach(tokens: seq<string>): (r: seq<string>)
    ensures |r| == |tokens| && forall i :: 0 <= i < |r| ==> r[i] == Unescape(tokens[i])
  {
    seq(|tokens|, i requires 0 <= i < |tokens| => Unescape(tokens[i]))
  }

  /** The tokens of a pointer: split at slashes, the part before the first one ignored, escapes undone. */
  function Tokens(pointer: string): seq<string> {
    UnescapeEach(Split(pointer, '/')[1..])
  }

  function MaskPointer(value: Json, pointer: string): Json {
    MaskAt(value, Tokens(pointer))
  }

  function MaskPointers(value: Json, pointers: seq<string>): Json {
    if pointers == [] then value
    else MaskPointer(MaskPointers(value, pointers[..|pointers| - 1]), pointers[|pointers| - 1])
  }

  method Normalize(body: Json, globalKeys: set<string>, pointers: seq<string>) returns (normalized: Json)
    ensures normalized == MaskPointers(MaskKeys(body, globalKeys), pointers)
  {
    normalized := MaskKeys(body, globalKeys);
    for i := 0 to |pointers|
      invariant normalized == MaskPointers(MaskKeys(body, globalKeys), pointers[..i])
    {
      assert pointers[..i + 1][..i] == pointers[..i];
      normalized := MaskPointer(normalized, pointers[i]);
    }
    assert pointers[..|pointers|] == pointers;
  }

  // ---------------------------------------------------------------- masks commute

  lemma {:induction false} MasksCommute(node: Json, p: seq<string>, q: seq<string>)
    ensures MaskAt(MaskAt(node, p), q) == MaskAt(MaskAt(node, q), p)
    decreases |p|
  {
    if p != [] && q != [] {
      match node
      case Dict(fields) =>
        var a, b := MaskAt(MaskAt(node, p), q).fields, MaskAt(MaskAt(node, q), p).fields;
        forall k | k in fields ensures a[k] == b[k] {
          MasksCommute(fields[k], p[1..], q[1..]);
        }
        assert a.Keys == fields.Keys == b.Keys;
        assert a == b;
      case List(items) =>
        var a, b := MaskAt(MaskAt(node, p), q).items, MaskAt(MaskAt(node, q), p).items;
        forall i | 0 <= i < |items| ensures a[i] == b[i] {
          MasksCommute(items[i], p[1..], q[1..]);
        }
        assert a == b;
      case _ =>
    }
  }

  lemma {:induction false} MaskIdempotent(node: Json, p: seq<string>)
    ensures MaskAt(MaskAt(node, p), p) == MaskAt(node, p)
    decreases |p|
  {
    if p != [] {
      match node
      case Dict(fields) =>
        var a, b := MaskAt(node, p).fields, MaskAt(MaskAt(node, p), p).fields;
        forall k | k in fields ensures a[k] == b[k] {
          MaskIdempotent(fields[k], p[1..]);
        }
        assert a.Keys == fields.Keys == b.Keys;
        assert a == b;
      case List(items) =>
        var a, b := MaskAt(node, p).items, MaskAt(MaskAt(node, p), p).items;
        forall i | 0 <= i < |items| ensures a[i] == b[i] {
          MaskIdempotent(items[i], p[1..]);
        }
        assert a == b;
      case _ =>
    }
  }

  lemma {:induction false} KeyMaskCommutes(node: Json, keys: set<string>, p: seq<string>)
    ensures MaskAt(MaskKeys(node, keys), p) == MaskKeys(MaskAt(node, p), keys)
    decreases |p|
  {
    if p != [] {
      match node
      case Dict(fields) =>
        var a, b := MaskAt(MaskKeys(node, keys), p).fields, MaskKeys(MaskAt(node, p), keys).fields;
        forall k | k in fields ensures a[k] == b[k] {
          KeyMaskCommutes(fields[k], keys, p[1..]);
          assert MaskAt(MASK, p[1..]) == MASK == MaskKeys(MASK, keys);
        }
        assert a.Keys == fields.Keys == b.Keys;
        assert a == b;
      case List(items) =>
        var a, b := MaskAt(MaskKeys(node, keys), p).items, MaskKeys(MaskAt(node, p), keys).items;
        forall i | 0 <= i < |items| ensures a[i] == b[i] {
          KeyMaskCommutes(items[i], keys, p[1..]);
        }
        assert a == b;
      case _ =>
    }
  }

  lemma {:induction false} KeyMaskIdempotent(node: Json, keys: set<string>)
    ensures MaskKeys(MaskKeys(node, keys), keys) == MaskKeys(node, keys)
    decreases node
  {
    match node
    case Dict(fields) =>
      var a, b := MaskKeys(node, keys).fields, MaskKeys(MaskKeys(node, keys), keys).fields;
      forall k | k in fields ensures a[k] == b[k] {
        KeyMaskIdempotent(fields[k], keys);
      }
      assert a.Keys == fields.Keys == b.Keys;
      assert a == b;
    case List(items) =>
      var a, b := MaskKeys(node, keys).items, MaskKeys(MaskKeys(node, keys), keys).items;
      forall i | 0 <= i < |items| ensures a[i] == b[i] {
        KeyMaskIdempotent(items[i], keys);
      }
      assert a == b;
    case _ =>
  }

  // ---------------------------------------------------------------- what normalizing depends on

  /** A pointer mask can be moved in front of all others. */
  lemma {:induction false} PointerFirst(value: Json, pointers: seq<string>, p: string)
    ensures MaskPointers(MaskPointer(value, p), pointers) == MaskPointer(MaskPointers(value, pointers), p)
    decreases |pointers|
  {
    if pointers != [] {
      var n := |pointers| - 1;
      PointerFirst(value, pointers[..n], p);
      MasksCommute(MaskPointers(value, pointers[..n]), Tokens(p), Tokens(pointers[n]));
    }
  }

  /** Masking at a pointer once more changes nothing. */
  lemma {:induction false} PointerAbsorbed(value: Json, pointers: seq<string>, p: string)
    requires p in pointers
    ensures MaskPointer(MaskPointers(value, pointers), p) == MaskPointers(value, pointers)
    decreases |pointers|
  {
    var n := |pointers| - 1;
    var before := MaskPointers(value, pointers[..n]);
    if pointers[n] == p {
      MaskIdempotent(before, Tokens(p));
    } else {
      assert p in pointers[..n];
      PointerAbsorbed(value, pointers[..n], p);
      MasksCommute(before, Tokens(pointers[n]), Tokens(p));
    }
  }

  lemma {:induction false} PointersAbsorbed(value: Json, pointers: seq<string>, qs: seq<string>)
    requires forall q :: q in qs ==> q in pointers
    ensures MaskPointers(MaskPointers(value, pointers), qs) == MaskPointers(value, pointers)
    decreases |qs|
  {
    if qs != [] {
      PointersAbsorbed(value, pointers, qs[..|qs| - 1]);
      PointerAbsorbed(value, pointers, qs[|qs| - 1]);
    }
  }

  lemma {:induction false} PointersSwap(value: Json, ps: seq<string>, qs: seq<string>)
    ensures MaskPointers(MaskPointers(value, ps), qs) == MaskPointers(MaskPointers(value, qs), ps)
    decreases |qs|
  {
    if qs != [] {
      var n := |qs| - 1;
      PointersSwap(value, ps, qs[..n]);
      PointerFirst(MaskPointers(value, qs[..n]), ps, qs[n]);
    }
  }

  /** Only the set of pointers matters: neither their order nor their repetition. */
  lemma NormalizeIgnoresPointerOrder(body: Json, keys: set<string>, ps: seq<string>, qs: seq<string>)
    requires forall p :: p in ps <==> p in qs
    ensures MaskPointers(MaskKeys(body, keys), ps) == MaskPointers(MaskKeys(body, keys), qs)
  {
    var v := MaskKeys(body, keys);
    PointersAbsorbed(v, ps, qs);
    PointersSwap(v, ps, qs);
    PointersAbsorbed(v, qs, ps);
  }

  lemma {:induction false} KeyMaskPastPointers(value: Json, keys: set<string>, ps: seq<string>)
    ensures MaskKeys(MaskPointers(value, ps), keys) == MaskPointers(MaskKeys(value, keys), ps)
    decreases |ps|
  {
    if ps != [] {
      var n := |ps| - 1;
      KeyMaskPastPointers(value, keys, ps[..n]);
      KeyMaskCommutes(MaskPointers(value, ps[..n]), keys, Tokens(ps[n]));
    }
  }

  /** Normalizing twice is normalizing once. */
  lemma NormalizeIdempotent(body: Json, keys: set<string>, ps: seq<string>)
    ensures var n := MaskPointers(MaskKeys(body, keys), ps);
            MaskPointers(MaskKeys(n, keys), ps) == n
  {
    var v := MaskKeys(body, keys);
    KeyMaskPastPointers(v, keys, ps);
    KeyMaskIdempotent(body, keys);
    PointersAbsorbed(v, ps, ps);
  }
}
