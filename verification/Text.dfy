/** The string operations the conformance runner and the batch reader are written with. */
module Text {

  // ---------------------------------------------------------------- replacing

  /** Every non-overlapping occurrence of `old'`, found from the left, is replaced. */
  function Replace(s: string, old': string, new': string): string
    requires old' != ""
    decreases |s|
  {
    if |s| < |old'| then s
    else if s[..|old'|] == old' then new' + Replace(s[|old'|..], old', new')
    else [s[0]] + Replace(s[1..], old', new')
  }

  function Escape(key: string): string {
    Replace(Replace(key, "~", "~0"), "/", "~1")
  }

  function Unescape(token: string): string {
    Replace(Replace(token, "~1", "/"), "~0", "~")
  }

  function EscapeChar(c: char): string {
    if c == '~' then "~0" else if c == '/' then "~1" else [c]
  }

  lemma ReplaceOne(c: char, rest: string, old': char, new': string)
    ensures Replace([c] + rest, [old'], new') == (if c == old' then new' else [c]) + Replace(rest, [old'], new')
  {
    var s := [c] + rest;
    assert s[..1] == [c] && s[1..] == rest;
  }

  lemma EscapeCons(c: char, rest: string)
    ensures Escape([c] + rest) == EscapeChar(c) + Escape(rest)
  {
    var r := Replace(rest, "~", "~0");
    ReplaceOne(c, rest, '~', "~0");
    if c == '~' {
      assert "~0" + r == ['~'] + (['0'] + r);
      ReplaceOne('~', ['0'] + r, '/', "~1");
      ReplaceOne('0', r, '/', "~1");
    } else {
      ReplaceOne(c, r, '/', "~1");
    }
  }

  lemma ReplaceTwo(a: char, b: char, rest: string, x: char, new': string)
    requires x != '~'
    ensures a != '~' ==> Replace([a] + rest, ['~', x], new') == [a] + Replace(rest, ['~', x], new')
    ensures a == '~' && b == x ==> Replace([a, b] + rest, ['~', x], new') == new' + Replace(rest, ['~', x], new')
    ensures a == '~' && b != x && b != '~' ==>
              Replace([a, b] + rest, ['~', x], new') == [a, b] + Replace(rest, ['~', x], new')
  {
    var s, t := [a] + rest, [a, b] + rest;
    assert s[0] == a && s[1..] == rest;
    assert t[..2] == [a, b] && t[2..] == rest && t[1..] == [b] + rest && ([b] + rest)[1..] == rest;
    if a != '~' && |s| < 2 {
      assert rest == "";
    }
  }

  lemma UnescapeCons(c: char, rest: string)
    ensures Unescape(EscapeChar(c) + rest) == [c] + Unescape(rest)
  {
    var r := Replace(rest, "~1", "/");
    if c == '~' {
      ReplaceTwo('~', '0', rest, '1', "/");
      assert "~0" + rest == ['~', '0'] + rest && "~0" + r == ['~', '0'] + r;
      ReplaceTwo('~', '0', r, '0', "~");
    } else if c == '/' {
      ReplaceTwo('~', '1', rest, '1', "/");
      assert "~1" + rest == ['~', '1'] + rest && "/" + r == ['/'] + r;
      ReplaceTwo('/', '/', r, '0', "~");
    } else {
      ReplaceTwo(c, c, rest, '1', "/");
      ReplaceTwo(c, c, r, '0', "~");
    }
  }

  /** Escaping a key as a pointer token is undone by unescaping it, as section 4 of RFC 6901 demands. */
  lemma {:induction false} UnescapeInverts(key: string)
    ensures Unescape(Escape(key)) == key
  {
    if key == "" {
    } else {
      UnescapeInverts(key[1..]);
      assert key == [key[0]] + key[1..];
      EscapeCons(key[0], key[1..]);
      UnescapeCons(key[0], Escape(key[1..]));
    }
  }

  lemma {:induction false} EscapeHasNoSlash(key: string)
    ensures '/' !in Escape(key)
  {
    if key != "" {
      EscapeHasNoSlash(key[1..]);
      assert key == [key[0]] + key[1..];
      EscapeCons(key[0], key[1..]);
    }
  }

  // ---------------------------------------------------------------- splitting

  function Split(s: string, sep: char): (r: seq<string>)
    ensures |r| > 0
    decreases |s|
  {
    if s == "" then [""]
    else
      var rest := Split(s[1..], sep);
      if s[0] == sep then [""] + rest else [[s[0]] + rest[0]] + rest[1..]
  }

  lemma {:induction false} SplitSingle(s: string, sep: char)
    requires sep !in s
    ensures Split(s, sep) == [s]
  {
    if s != "" {
      SplitSingle(s[1..], sep);
      assert [s[0]] + s[1..] == s;
    }
  }

  lemma {:induction false} SplitAppend(s: string, sep: char, t: string)
    requires sep !in t
    ensures Split(s + [sep] + t, sep) == Split(s, sep) + [t]
    decreases |s|
  {
    var whole := s + [sep] + t;
    if s == "" {
      assert whole[1..] == t;
      SplitSingle(t, sep);
    } else {
      assert whole[0] == s[0] && whole[1..] == s[1..] + [sep] + t;
      SplitAppend(s[1..], sep, t);
    }
  }

  // ---------------------------------------------------------------- decimal numbers

  predicate IsDigit(c: char) {
    '0' <= c <= '9'
  }

  predicate IsDigits(s: string) {
    s != "" && forall c :: c in s ==> IsDigit(c)
  }

  function DigitValue(c: char): nat
    requires IsDigit(c)
  {
    (c - '0') as int
  }

  function DigitChar(d: nat): (c: char)
    requires d < 10
    ensures IsDigit(c) && DigitValue(c) == d
  {
    '0' + d as char
  }

  function ToDecimal(n: nat): (s: string)
    ensures IsDigits(s)
  {
    if n < 10 then [DigitChar(n)] else ToDecimal(n / 10) + [DigitChar(n % 10)]
  }

  function FromDecimal(s: string): nat
    requires IsDigits(s)
  {
    var n := |s| - 1;
    if n == 0 then DigitValue(s[0]) else FromDecimal(s[..n]) * 10 + DigitValue(s[n])
  }

  lemma {:induction false} DecimalRoundTrip(n: nat)
    ensures FromDecimal(ToDecimal(n)) == n
  {
    if n >= 10 {
      DecimalRoundTrip(n / 10);
      var front := ToDecimal(n / 10);
      assert ToDecimal(n)[..|front|] == front;
    }
  }

  lemma {:induction false} EscapeKeepsDigits(s: string)
    requires forall c :: c in s ==> IsDigit(c)
    ensures Escape(s) == s
  {
    if s != "" {
      assert IsDigit(s[0]);
      EscapeKeepsDigits(s[1..]);
      assert s == [s[0]] + s[1..];
      EscapeCons(s[0], s[1..]);
    }
  }

  // ---------------------------------------------------------------- order

  /** Code-point order, the order `sorted` puts strings in. */
  predicate LessEq(a: string, b: string)
    decreases |a|
  {
    if a == "" then true
    else if b == "" then false
    else if a[0] == b[0] then LessEq(a[1..], b[1..])
    else a[0] < b[0]
  }

  lemma {:induction false} LessEqTotal(a: string, b: string)
    ensures LessEq(a, b) || LessEq(b, a)
    ensures LessEq(a, b) && LessEq(b, a) ==> a == b
    decreases |a|
  {
    if a != "" && b != "" && a[0] == b[0] {
      LessEqTotal(a[1..], b[1..]);
      assert a == [a[0]] + a[1..] && b == [b[0]] + b[1..];
    }
  }

  lemma {:induction false} LessEqTransitive(a: string, b: string, c: string)
    requires LessEq(a, b) && LessEq(b, c)
    ensures LessEq(a, c)
    decreases |a|
  {
    if a != "" && b != "" && c != "" && a[0] == b[0] == c[0] {
      LessEqTransitive(a[1..], b[1..], c[1..]);
    }
  }

  ghost predicate IsLeast(s: set<string>, least: string) {
    least in s && forall k :: k in s ==> LessEq(least, k)
  }

  lemma {:induction false} LeastExists(s: set<string>)
    requires s != {}
    ensures exists least :: IsLeast(s, least)
    decreases |s|
  {
    var x :| x in s;
    var rest := s - {x};
    LessEqTotal(x, x);
    if rest == {} {
      assert s == {x};
      assert IsLeast(s, x);
    } else {
      LeastExists(rest);
      var y :| IsLeast(rest, y);
      LessEqTotal(x, y);
      var least := if LessEq(x, y) then x else y;
      forall k | k in s ensures LessEq(least, k) {
        if k != x && least == x { LessEqTransitive(x, y, k); }
      }
      assert IsLeast(s, least);
    }
  }

  lemma LeastUnique(s: set<string>, a: string, b: string)
    requires IsLeast(s, a) && IsLeast(s, b)
    ensures a == b
  {
    LessEqTotal(a, b);
  }

  ghost function Least(s: set<string>): (least: string)
    requires s != {}
    ensures IsLeast(s, least)
  {
    LeastExists(s);
    var least :| IsLeast(s, least);
    least
  }

  /** The keys in `sorted` order. */
  ghost function Sorted(s: set<string>): (r: seq<string>)
    ensures forall k :: k in r <==> k in s
    decreases |s|
  {
    if s == {} then [] else [Least(s)] + Sorted(s - {Least(s)})
  }

  /** They ascend strictly, so each key is listed once and the listing is the only one. */
  lemma {:induction false} SortedAscends(s: set<string>)
    ensures |Sorted(s)| == |s|
    ensures forall i, j :: 0 <= i < j < |Sorted(s)| ==>
                             LessEq(Sorted(s)[i], Sorted(s)[j]) && !LessEq(Sorted(s)[j], Sorted(s)[i])
    decreases |s|
  {
    if s != {} {
      var least, r := Least(s), Sorted(s - {Least(s)});
      SortedAscends(s - {least});
      assert Sorted(s) == [least] + r;
      forall j | 0 <= j < |r| ensures LessEq(least, r[j]) && !LessEq(r[j], least) {
        assert r[j] in s - {least};
        LessEqTotal(least, r[j]);
      }
    }
  }

  /** Of two different strings the one that runs out, or has the lower character where they part, is the lower. */
  lemma {:induction false} OrderedWhereTheyPart(a: string, b: string, n: nat)
    requires n <= |a| && n <= |b| && a[..n] == b[..n]
    requires (n == |a| || n == |b|) || a[n] != b[n]
    ensures LessEq(a, b) <==> n == |a| || (n < |b| && a[n] < b[n])
    decreases n
  {
    if n > 0 {
      assert a[0] == a[..n][0] == b[..n][0] == b[0];
      assert a[1..][..n - 1] == a[..n][1..] == b[..n][1..] == b[1..][..n - 1];
      OrderedWhereTheyPart(a[1..], b[1..], n - 1);
    }
  }

  method FindLeast(s: set<string>) returns (least: string)
    requires s != {}
    ensures least == Least(s)
  {
    least :| least in s;
    var rest := s - {least};
    LessEqTotal(least, least);
    while rest != {}
      invariant rest < s && least in s && forall k :: k in s && k !in rest ==> LessEq(least, k)
      decreases |rest|
    {
      var k :| k in rest;
      LessEqTotal(least, k);
      if !LessEq(least, k) {
        forall j | j in s && j !in rest ensures LessEq(k, j) {
          LessEqTransitive(k, least, j);
        }
        LessEqTotal(k, k);
        least := k;
      }
      rest := rest - {k};
    }
    LeastUnique(s, least, Least(s));
  }

  lemma SortedStep(r: seq<string>, s: set<string>)
    requires s != {}
    ensures r + Sorted(s) == (r + [Least(s)]) + Sorted(s - {Least(s)})
  {
    assert Sorted(s) == [Least(s)] + Sorted(s - {Least(s)});
  }

  /** `sorted`, by repeatedly taking the least key that is left. */
  method SortKeys(s: set<string>) returns (r: seq<string>)
    ensures r == Sorted(s)
  {
    r := [];
    var left := s;
    hide Least;
    while left != {}
      invariant r + Sorted(left) == Sorted(s)
      decreases |left|
    {
      var least := FindLeast(left);
      SortedStep(r, left);
      r := r + [least];
      left := left - {least};
    }
  }
}
