/**
 Normalizing and diffing told place by place. A place is a path through objects and lists, looked up
 in the document itself: this module says what stands at each place of a normalized body, which bodies
 normalization tells apart, and which line the diff reports for which place.
 */
module JsonPlaces {
  import opened Prelude
  import opened Text
  import opened JsonMasking
  import opened JsonDiff

  datatype Step = Key(k: string) | Index(i: nat)

  type Place = seq<Step>

  /** The value one step down. */
  function Child(v: Json, step: Step): Option<Json> {
    match step
    case Key(k) => if v.Dict? && k in v.fields then Some(v.fields[k]) else None
    case Index(i) => if v.List? && i < |v.items| then Some(v.items[i]) else None
  }

  /** The value at a place, if the document has it. */
  function At(v: Json, p: Place): Option<Json> {
    if p == [] then Some(v)
    else
      match Child(v, p[0])
      case Some(c) => At(c, p[1..])
      case None => None
  }

  lemma {:induction false} AtSplit(v: Json, p: Place, q: Place)
    ensures At(v, p + q) == match At(v, p) case Some(w) => At(w, q) case None => None
    decreases |p|
  {
    if p == [] {
      assert p + q == q;
    } else {
      assert (p + q)[0] == p[0] && (p + q)[1..] == p[1..] + q;
      match Child(v, p[0])
      case Some(c) => AtSplit(c, p[1..], q);
      case None =>
    }
  }

  lemma AtBelow(v: Json, step: Step, p: Place)
    ensures At(v, [step] + p) == match Child(v, step) case Some(c) => At(c, p) case None => None
  {
    assert ([step] + p)[1..] == p;
  }

  lemma AtParent(v: Json, p: Place, step: Step)
    ensures At(v, p + [step]) == match At(v, p) case Some(w) => Child(w, step) case None => None
  {
    AtSplit(v, p, [step]);
    if At(v, p).Some? {
      var w := At(v, p).value;
      assert [step][1..] == [];
    }
  }

  /** What a place looks like without what lies below it. */
  datatype Shape = Scalar(value: Json) | Fields(keys: set<string>) | Length(n: nat)

  function ShapeOf(v: Json): Shape {
    match v
    case Dict(fields) => Fields(fields.Keys)
    case List(items) => Length(|items|)
    case _ => Scalar(v)
  }

  function ShapeAt(v: Json, p: Place): Option<Shape> {
    match At(v, p) case Some(w) => Some(ShapeOf(w)) case None => None
  }

  /** The shapes at all places determine the document. */
  lemma {:induction false} ShapesDetermine(a: Json, b: Json)
    requires forall p :: ShapeAt(a, p) == ShapeAt(b, p)
    ensures a == b
    decreases a
  {
    assert ShapeAt(a, []) == ShapeAt(b, []);
    match a
    case Dict(fields) =>
      forall k | k in fields ensures fields[k] == b.fields[k] {
        ShapesBelow(a, b, Key(k));
        ShapesDetermine(fields[k], b.fields[k]);
      }
      assert fields == b.fields;
    case List(items) =>
      forall i | 0 <= i < |items| ensures items[i] == b.items[i] {
        ShapesBelow(a, b, Index(i));
        ShapesDetermine(items[i], b.items[i]);
      }
      assert items == b.items;
    case _ =>
  }

  lemma ShapesBelow(a: Json, b: Json, step: Step)
    requires forall p :: ShapeAt(a, p) == ShapeAt(b, p)
    requires Child(a, step).Some? && Child(b, step).Some?
    ensures forall p :: ShapeAt(Child(a, step).value, p) == ShapeAt(Child(b, step).value, p)
  {
    forall p ensures ShapeAt(Child(a, step).value, p) == ShapeAt(Child(b, step).value, p) {
      AtBelow(a, step, p);
      AtBelow(b, step, p);
      assert ShapeAt(a, [step] + p) == ShapeAt(b, [step] + p);
    }
  }

  // ---------------------------------------------------------------- masking, place by place

  /** The place lies strictly below one of `masked`. */
  ghost predicate Below(masked: iset<Place>, p: Place) {
    exists n :: 0 <= n < |p| && p[..n] in masked
  }

  /**
   What stands at `p` when the values at the places `masked` are replaced by the marker: nothing below
   such a place, the marker at it, and elsewhere what stood there before.
   */
  ghost function Expected(v: Json, masked: iset<Place>, p: Place): Option<Shape> {
    if ShapeAt(v, p).None? || Below(masked, p) then None
    else if p in masked then Some(Scalar(MASK))
    else ShapeAt(v, p)
  }

  /** `w` is `v` with exactly the values at the places `masked` replaced. */
  ghost predicate MaskedTo(v: Json, masked: iset<Place>, w: Json) {
    forall p :: ShapeAt(w, p) == Expected(v, masked, p)
  }

  lemma MasksCompose(u: Json, first: iset<Place>, v: Json, second: iset<Place>, w: Json)
    requires MaskedTo(u, first, v) && MaskedTo(v, second, w)
    ensures MaskedTo(u, first + second, w)
  {
    forall p ensures ShapeAt(w, p) == Expected(u, first + second, p) {
      assert ShapeAt(v, p) == Expected(u, first, p) && ShapeAt(w, p) == Expected(v, second, p);
      assert Below(first + second, p) <==> Below(first, p) || Below(second, p) by {
        if Below(first, p) { var n :| 0 <= n < |p| && p[..n] in first; assert p[..n] in first + second; }
        if Below(second, p) { var n :| 0 <= n < |p| && p[..n] in second; assert p[..n] in first + second; }
      }
    }
  }

  /** Every place that ends at a field named in `keys`. */
  ghost function KeyPlaces(keys: set<string>): iset<Place> {
    iset p: Place | p != [] && p[|p| - 1].Key? && p[|p| - 1].k in keys
  }

  /** A pointer's token takes the step: `*` any, a name the field, digits the index they write. */
  predicate Takes(token: string, step: Step) {
    match step
    case Key(k) => token == "*" || token == k
    case Index(i) => token == "*" || (IsDigits(token) && FromDecimal(token) == i)
  }

  /** Every place the tokens lead to. */
  ghost function TokenPlaces(tokens: seq<string>): iset<Place> {
    iset p: Place | |p| == |tokens| && forall i :: 0 <= i < |p| ==> Takes(tokens[i], p[i])
  }

  /** One of the pointers leads to the place. */
  ghost predicate LedTo(pointers: seq<string>, p: Place) {
    exists i :: 0 <= i < |pointers| && p in TokenPlaces(Tokens(pointers[i]))
  }

  ghost function PointerPlaces(pointers: seq<string>): iset<Place> {
    iset p: Place | LedTo(pointers, p)
  }

  /** The places a case masks: under a global key wherever it stands, and where its pointers lead. */
  ghost function MaskedPlaces(keys: set<string>, pointers: seq<string>): iset<Place> {
    KeyPlaces(keys) + PointerPlaces(pointers)
  }

  /** The masked places beyond a step, seen from there. */
  ghost function Under(masked: iset<Place>, step: Step): iset<Place> {
    iset q: Place | [step] + q in masked
  }

  lemma BelowStep(masked: iset<Place>, inner: iset<Place>, step: Step, p: Place)
    requires [] !in masked && forall q :: q in inner <==> [step] + q in masked
    ensures Below(masked, [step] + p) <==> Below(inner, p)
    ensures [step] + p in masked <==> p in inner
  {
    var whole := [step] + p;
    if Below(inner, p) {
      var n :| 0 <= n < |p| && p[..n] in inner;
      assert whole[..n + 1] == [step] + p[..n];
    }
    if Below(masked, whole) {
      var n :| 0 <= n < |whole| && whole[..n] in masked;
      assert whole[..0] == [];
      assert whole[..n] == [step] + p[..n - 1];
    }
  }

  /** A document whose children are masked one by one, those at `masked` themselves giving the marker. */
  lemma MaskedByChildren(v: Json, masked: iset<Place>, w: Json)
    requires [] !in masked && ShapeOf(v) == ShapeOf(w)
    requires forall step :: Child(v, step).Some? ==>
               MaskedTo(Child(v, step).value, Under(masked, step), Child(w, step).value)
    ensures MaskedTo(v, masked, w)
  {
    forall p ensures ShapeAt(w, p) == Expected(v, masked, p) {
      if p == [] {
      } else {
        var step, rest := p[0], p[1..];
        var inner := Under(masked, step);
        assert p == [step] + rest;
        AtBelow(v, step, rest);
        AtBelow(w, step, rest);
        BelowStep(masked, inner, step, rest);
        if Child(v, step).Some? {
          assert ShapeAt(Child(w, step).value, rest) == Expected(Child(v, step).value, inner, rest);
        }
      }
    }
  }

  lemma MarkerIsMasked(v: Json, masked: iset<Place>)
    requires [] in masked
    ensures MaskedTo(v, masked, MASK)
  {
    forall p ensures ShapeAt(MASK, p) == Expected(v, masked, p) {
      if p != [] { assert p[..0] in masked; }
    }
  }

  lemma MarkerUnder(keys: set<string>, step: Step)
    requires step.Key? && step.k in keys
    ensures [] in Under(KeyPlaces(keys), step)
  {
    assert [step] + [] == [step];
  }

  lemma UnderKeys(keys: set<string>, step: Step)
    requires step.Key? ==> step.k !in keys
    ensures Under(KeyPlaces(keys), step) == KeyPlaces(keys)
  {
    forall q ensures [step] + q in KeyPlaces(keys) <==> q in KeyPlaces(keys) {
      if q == [] { assert [step] + q == [step]; } else { assert ([step] + q)[|q|] == q[|q| - 1]; }
    }
  }

  lemma {:induction false} KeysMasked(v: Json, keys: set<string>)
    ensures MaskedTo(v, KeyPlaces(keys), MaskKeys(v, keys))
    decreases v
  {
    hide MaskedTo, Under, ShapeAt;
    var masked, w := KeyPlaces(keys), MaskKeys(v, keys);
    forall step | Child(v, step).Some?
      ensures MaskedTo(Child(v, step).value, Under(masked, step), Child(w, step).value)
    {
      var inner, c := Under(masked, step), Child(v, step).value;
      if step.Key? && step.k in keys {
        MarkerUnder(keys, step);
        MarkerIsMasked(c, inner);
      } else {
        UnderKeys(keys, step);
        KeysMasked(c, keys);
      }
    }
    MaskedByChildren(v, masked, w);
  }

  lemma TokensBelow(tokens: seq<string>, step: Step)
    requires tokens != []
    ensures Under(TokenPlaces(tokens), step) ==
            if Takes(tokens[0], step) then TokenPlaces(tokens[1..]) else iset{}
  {
    forall q: Place
      ensures [step] + q in TokenPlaces(tokens) <==> Takes(tokens[0], step) && q in TokenPlaces(tokens[1..])
    {
      var p := [step] + q;
      if p in TokenPlaces(tokens) {
        assert Takes(tokens[0], p[0]);
        forall i | 0 <= i < |q| ensures Takes(tokens[1..][i], q[i]) { assert Takes(tokens[i + 1], p[i + 1]); }
      }
      if Takes(tokens[0], step) && q in TokenPlaces(tokens[1..]) {
        forall i | 0 <= i < |p| ensures Takes(tokens[i], p[i]) {
          if i > 0 { assert Takes(tokens[1..][i - 1], q[i - 1]); }
        }
      }
    }
  }

  lemma NothingMasked(v: Json)
    ensures MaskedTo(v, iset{}, v)
  {
  }

  lemma {:induction false} TokensMasked(v: Json, tokens: seq<string>)
    ensures MaskedTo(v, TokenPlaces(tokens), MaskAt(v, tokens))
    decreases |tokens|
  {
    var masked, w := TokenPlaces(tokens), MaskAt(v, tokens);
    if tokens == [] {
      MarkerIsMasked(v, masked);
    } else {
      hide MaskedTo, ShapeAt, Under, TokenPlaces;
      forall step | Child(v, step).Some?
        ensures MaskedTo(Child(v, step).value, Under(masked, step), Child(w, step).value)
      {
        var c := Child(v, step).value;
        TokensBelow(tokens, step);
        if Takes(tokens[0], step) { TokensMasked(c, tokens[1..]); } else { NothingMasked(c); }
      }
      MaskedByChildren(v, masked, w);
    }
  }

  lemma LedOneMore(pointers: seq<string>)
    requires pointers != []
    ensures var n := |pointers| - 1;
            PointerPlaces(pointers) == PointerPlaces(pointers[..n]) + TokenPlaces(Tokens(pointers[n]))
  {
    hide TokenPlaces, Tokens;
    var n := |pointers| - 1;
    forall p ensures LedTo(pointers, p) <==> LedTo(pointers[..n], p) || p in TokenPlaces(Tokens(pointers[n])) {
      if LedTo(pointers[..n], p) {
        var i :| 0 <= i < n && p in TokenPlaces(Tokens(pointers[..n][i]));
        assert pointers[i] == pointers[..n][i];
      }
      if LedTo(pointers, p) {
        var i :| 0 <= i < |pointers| && p in TokenPlaces(Tokens(pointers[i]));
        if i < n { assert pointers[i] == pointers[..n][i]; }
      }
    }
  }

  lemma {:induction false} PointersMasked(v: Json, pointers: seq<string>)
    ensures MaskedTo(v, PointerPlaces(pointers), MaskPointers(v, pointers))
    decreases |pointers|
  {
    if pointers == [] {
      assert PointerPlaces(pointers) == iset{};
      NothingMasked(v);
    } else {
      hide MaskedTo;
      var n := |pointers| - 1;
      var front, last := PointerPlaces(pointers[..n]), TokenPlaces(Tokens(pointers[n]));
      PointersMasked(v, pointers[..n]);
      TokensMasked(MaskPointers(v, pointers[..n]), Tokens(pointers[n]));
      MasksCompose(v, front, MaskPointers(v, pointers[..n]), last, MaskPointers(v, pointers));
      LedOneMore(pointers);
    }
  }

  /**
   Normalizing, at every place of every body: the marker where a key or a pointer masks, nothing below
   it, and everywhere else the same scalar, the same fields, the same length as before.
   */
  lemma NormalizedPlaceByPlace(body: Json, keys: set<string>, pointers: seq<string>)
    ensures MaskedTo(body, MaskedPlaces(keys, pointers), MaskPointers(MaskKeys(body, keys), pointers))
  {
    KeysMasked(body, keys);
    PointersMasked(MaskKeys(body, keys), pointers);
    MasksCompose(body, KeyPlaces(keys), MaskKeys(body, keys), PointerPlaces(pointers),
                 MaskPointers(MaskKeys(body, keys), pointers));
  }

  /** The bodies look the same at every place that is neither masked nor below a masked one. */
  ghost predicate SameOutside(masked: iset<Place>, a: Json, b: Json) {
    forall p :: p !in masked && !Below(masked, p) ==> ShapeAt(a, p) == ShapeAt(b, p)
  }

  lemma SamePlaces(masked: iset<Place>, a: Json, b: Json, p: Place)
    requires SameOutside(masked, a, b) && !Below(masked, p)
    ensures ShapeAt(a, p).Some? <==> ShapeAt(b, p).Some?
  {
    if p != [] {
      var n := |p| - 1;
      var q, step := p[..n], p[n];
      assert p == q + [step];
      AtParent(a, q, step);
      AtParent(b, q, step);
      assert q !in masked;
      assert forall m :: 0 <= m < |q| ==> p[..m] == q[..m];
      assert !Below(masked, q);
      assert ShapeAt(a, q) == ShapeAt(b, q);
    }
  }

  /** Normalizing identifies exactly the bodies that differ at masked places alone. */
  lemma {:induction false} NormalizedAlikeIffSameOutside(a: Json, b: Json, keys: set<string>, pointers: seq<string>)
    ensures MaskPointers(MaskKeys(a, keys), pointers) == MaskPointers(MaskKeys(b, keys), pointers) <==>
            SameOutside(MaskedPlaces(keys, pointers), a, b)
  {
    var masked := MaskedPlaces(keys, pointers);
    var x, y := MaskPointers(MaskKeys(a, keys), pointers), MaskPointers(MaskKeys(b, keys), pointers);
    NormalizedPlaceByPlace(a, keys, pointers);
    NormalizedPlaceByPlace(b, keys, pointers);
    hide MaskedPlaces, ShapeAt, Below;
    if x == y {
      forall p | p !in masked && !Below(masked, p) ensures ShapeAt(a, p) == ShapeAt(b, p) {
        assert ShapeAt(x, p) == Expected(a, masked, p) && ShapeAt(y, p) == Expected(b, masked, p);
      }
    }
    if SameOutside(masked, a, b) {
      forall p ensures ShapeAt(x, p) == ShapeAt(y, p) {
        assert ShapeAt(x, p) == Expected(a, masked, p) && ShapeAt(y, p) == Expected(b, masked, p);
        if !Below(masked, p) { SamePlaces(masked, a, b, p); }
      }
      ShapesDetermine(x, y);
    }
  }

  // ---------------------------------------------------------------- the diff, place by place

  function Token(step: Step): string {
    match step case Key(k) => Escape(k) case Index(i) => ToDecimal(i)
  }

  /** The JSON Pointer of a place. */
  function Pointer(p: Place): string {
    if p == [] then "" else "/" + Token(p[0]) + Pointer(p[1..])
  }

  /** Two values of one kind that hold nothing, or two numbers, and are not the same. */
  predicate ValuesDiffer(golden: Json, actual: Json) {
    if IsNumber(golden) && IsNumber(actual) then !SameNumber(golden, actual)
    else SameType(golden, actual) && !golden.Dict? && !golden.List? && golden != actual
  }

  /** Just above the place both documents have an object, or both a list. */
  predicate InBoth(a: Json, b: Json, p: Place)
    requires p != []
  {
    var q := p[..|p| - 1];
    At(a, q).Some? && At(b, q).Some? && SameType(At(a, q).value, At(b, q).value)
  }

  /** What a line of this kind says about the place is so. */
  predicate Tells(a: Json, b: Json, p: Place, kind: Kind) {
    var x, y := At(a, p), At(b, p);
    match kind
    case ValueDiffers(golden, actual) => x == Some(golden) && y == Some(actual) && ValuesDiffer(golden, actual)
    case TypeDiffers =>
      && x.Some? && y.Some? && !SameType(x.value, y.value) && !(IsNumber(x.value) && IsNumber(y.value))
    case MissingFromResponse => x.Some? && y.None? && InBoth(a, b, p)
    case NotInGolden => x.None? && y.Some? && InBoth(a, b, p)
  }

  /** The line names a place below `path` and says of it what is so. */
  ghost predicate Told(a: Json, b: Json, path: string, line: Line) {
    exists p :: line.where == Where(path + Pointer(p)) && Tells(a, b, p, line.kind)
  }

  lemma TellsBelow(a: Json, b: Json, step: Step, p: Place, kind: Kind)
    requires Child(a, step).Some? && Child(b, step).Some?
    ensures Tells(a, b, [step] + p, kind) <==> Tells(Child(a, step).value, Child(b, step).value, p, kind)
  {
    AtBelow(a, step, p);
    AtBelow(b, step, p);
    if p != [] {
      var q := p[..|p| - 1];
      assert ([step] + p)[..|p|] == [step] + q;
      AtBelow(a, step, q);
      AtBelow(b, step, q);
    }
  }

  lemma PointerBelow(path: string, step: Step, p: Place)
    ensures path + Pointer([step] + p) == (path + "/" + Token(step)) + Pointer(p)
    ensures Where(path + Pointer([step] + p)) == path + Pointer([step] + p)
  {
    assert ([step] + p)[1..] == p;
  }

  /** What is told below a step both documents have is what is told of the two values there. */
  lemma ToldBelow(a: Json, b: Json, path: string, step: Step, line: Line)
    requires Child(a, step).Some? && Child(b, step).Some?
    ensures Told(Child(a, step).value, Child(b, step).value, path + "/" + Token(step), line) <==>
            exists p :: line.where == Where(path + Pointer([step] + p)) && Tells(a, b, [step] + p, line.kind)
  {
    hide Tells, Pointer, Where;
    forall p ensures line.where == Where(path + Pointer([step] + p)) && Tells(a, b, [step] + p, line.kind) <==>
        line.where == Where((path + "/" + Token(step)) + Pointer(p))
          && Tells(Child(a, step).value, Child(b, step).value, p, line.kind)
    {
      PointerBelow(path, step, p);
      TellsBelow(a, b, step, p, line.kind);
    }
  }

  /** The line is about a place at or beyond the step. */
  ghost predicate ToldBeyond(a: Json, b: Json, path: string, step: Step, line: Line) {
    exists p :: line.where == Where(path + Pointer([step] + p)) && Tells(a, b, [step] + p, line.kind)
  }

  /** Beyond a step that only one document has, the one line is about the step itself. */
  lemma ToldOnce(a: Json, b: Json, path: string, step: Step, line: Line)
    requires SameType(a, b) && (Child(a, step).Some? <==> Child(b, step).None?)
    ensures ToldBeyond(a, b, path, step, line) <==>
            line == Line(path + "/" + Token(step),
                         if Child(a, step).Some? then MissingFromResponse else NotInGolden)
  {
    PointerBelow(path, step, []);
    assert path + "/" + Token(step) + Pointer([]) == path + "/" + Token(step);
    AtBelow(a, step, []);
    AtBelow(b, step, []);
    assert ([step] + [])[..0] == [];
    forall p | p != [] ensures !Tells(a, b, [step] + p, line.kind) {
      var q := p[..|p| - 1];
      assert ([step] + p)[..|p|] == [step] + q;
      AtBelow(a, step, p);
      AtBelow(b, step, p);
      AtBelow(a, step, q);
      AtBelow(b, step, q);
    }
  }

  lemma ToldByStep(a: Json, b: Json, path: string, line: Line)
    requires (a.Dict? && b.Dict?) || (a.List? && b.List?)
    ensures Told(a, b, path, line) <==>
            exists step :: (Child(a, step).Some? || Child(b, step).Some?) && ToldBeyond(a, b, path, step, line)
  {
    hide Pointer, Where;
    if p :| line.where == Where(path + Pointer(p)) && Tells(a, b, p, line.kind) {
      assert p != [] by { assert At(a, []) == Some(a) && At(b, []) == Some(b); }
      assert p == [p[0]] + p[1..];
      assert Child(a, p[0]).Some? || Child(b, p[0]).Some?;
      assert ToldBeyond(a, b, path, p[0], line);
    }
  }

  /**
   The diff is complete and correct, place by place: it holds a line exactly when the place the line
   points to differs in the way the line says, with the two values found there.
   */
  lemma {:induction false} DiffTellsEveryPlace(expected: Json, actual: Json, path: string, line: Line)
    ensures line in Diff(expected, actual, path) <==> Told(expected, actual, path, line)
    decreases expected
  {
    if (expected.Dict? && actual.Dict?) || (expected.List? && actual.List?) {
      forall step | Child(expected, step).Some? || Child(actual, step).Some?
        ensures ToldBeyond(expected, actual, path, step, line) <==> line in DiffStep(expected, actual, step, path)
      {
        if Child(expected, step).Some? && Child(actual, step).Some? {
          ToldBelow(expected, actual, path, step, line);
          DiffTellsEveryPlace(Child(expected, step).value, Child(actual, step).value, path + "/" + Token(step), line);
        } else {
          ToldOnce(expected, actual, path, step, line);
        }
      }
      hide Told, ToldBeyond, DiffStep, Diff;
      ToldByStep(expected, actual, path, line);
      DiffByStep(expected, actual, path, line);
    } else {
      ToldHere(expected, actual, path, line);
    }
  }

  /** What the diff adds for one step down. */
  ghost function DiffStep(a: Json, b: Json, step: Step, path: string): seq<Line>
    requires (a.Dict? && b.Dict?) || (a.List? && b.List?)
  {
    match step
    case Key(k) => if a.Dict? then DiffKey(a, b, k, path) else []
    case Index(i) => if a.List? then DiffItem(a, b, i, path) else []
  }

  lemma DiffByStep(a: Json, b: Json, path: string, line: Line)
    requires (a.Dict? && b.Dict?) || (a.List? && b.List?)
    ensures line in Diff(a, b, path) <==>
            exists step :: (Child(a, step).Some? || Child(b, step).Some?) && line in DiffStep(a, b, step, path)
  {
    if a.Dict? {
      var keys := Sorted(a.fields.Keys + b.fields.Keys);
      assert Diff(a, b, path) == DiffKeys(a, b, keys, path);
      hide Diff, DiffKey, DiffKeys;
      DiffKeysHas(a, b, keys, path, line);
      forall k ensures k in keys && line in DiffKey(a, b, k, path) <==>
          (Child(a, Key(k)).Some? || Child(b, Key(k)).Some?) && line in DiffStep(a, b, Key(k), path) {
      }
    } else {
      assert Diff(a, b, path) == DiffItems(a, b, path, Longer(a, b));
      hide Diff, DiffItem, DiffItems;
      DiffItemsHas(a, b, path, Longer(a, b), line);
      if line in DiffItems(a, b, path, Longer(a, b)) {
        var i: nat :| i < Longer(a, b) && line in DiffItem(a, b, i, path);
        var step := Index(i);
        assert (Child(a, step).Some? || Child(b, step).Some?) && line in DiffStep(a, b, step, path);
      }
      if step :| (Child(a, step).Some? || Child(b, step).Some?) && line in DiffStep(a, b, step, path) {
        ItemLineIsListed(a, b, path, Longer(a, b), step.i, line);
      }
    }
  }

  lemma NothingBelow(a: Json, b: Json, p: Place, kind: Kind)
    requires !(a.Dict? && b.Dict?) && !(a.List? && b.List?) && p != []
    ensures !Tells(a, b, p, kind)
  {
    var q := p[..|p| - 1];
    assert Child(a, p[0]).None? || Child(b, p[0]).None?;
    if q == [] {
      assert At(a, q) == Some(a) && At(b, q) == Some(b);
      assert p == [p[0]];
    } else {
      assert q[0] == p[0];
    }
  }

  /** Two values that are not both objects or both lists differ at their own place or nowhere. */
  lemma ToldHere(a: Json, b: Json, path: string, line: Line)
    requires !(a.Dict? && b.Dict?) && !(a.List? && b.List?)
    ensures line in Diff(a, b, path) <==> Told(a, b, path, line)
  {
    assert Told(a, b, path, line) <==> line.where == Where(path) && Tells(a, b, [], line.kind) by {
      hide Tells, Where, Diff;
      assert path + Pointer([]) == path;
      forall p | p != [] ensures !Tells(a, b, p, line.kind) {
        NothingBelow(a, b, p, line.kind);
      }
    }
    hide Told, Where;
    DiffHere(a, b, path, line);
  }

  lemma DiffHere(a: Json, b: Json, path: string, line: Line)
    requires !(a.Dict? && b.Dict?) && !(a.List? && b.List?)
    ensures line in Diff(a, b, path) <==> line.where == Where(path) && Tells(a, b, [], line.kind)
  {
    assert At(a, []) == Some(a) && At(b, []) == Some(b);
    hide Where;
  }
}
