/** Decimal rounding and finite sums over exact reals, shared by the scoring models. */
module Rounding {

  /** Round to the nearest integer, halves to the even neighbour. */
  function Nearest(x: real): int {
    var d := x - x.Floor as real;
    if d < 0.5 then x.Floor
    else if d > 0.5 then x.Floor + 1
    else if x.Floor % 2 == 0 then x.Floor else x.Floor + 1
  }

  /** How many decimals a result keeps: two, four or six. */
  datatype Places = Hundredths | TenThousandths | Millionths

  function Scale(p: Places): real {
    match p case Hundredths => 100.0 case TenThousandths => 10000.0 case Millionths => 1000000.0
  }

  /** Python's `round(x, n)` on an exact value. */
  function Round(x: real, p: Places): real {
    match p
    case Hundredths => Nearest(x * 100.0) as real / 100.0
    case TenThousandths => Nearest(x * 10000.0) as real / 10000.0
    case Millionths => Nearest(x * 1000000.0) as real / 1000000.0
  }

  lemma NearestMonotone(x: real, y: real)
    requires x <= y
    ensures Nearest(x) <= Nearest(y)
  {
    assert x.Floor <= y.Floor;
  }

  lemma NearestError(x: real)
    ensures -0.5 <= Nearest(x) as real - x <= 0.5
  {
  }

  /** `k` is the nearest integer, and the even one of two that are equally near. */
  ghost predicate IsNearest(x: real, k: int) {
    var d := k as real - x;
    (-0.5 < d < 0.5) || ((d == 0.5 || d == -0.5) && k % 2 == 0)
  }

  lemma NearestIff(x: real, k: int)
    ensures Nearest(x) == k <==> IsNearest(x, k)
  {
    var f := x.Floor;
    assert f as real <= x < f as real + 1.0;
    if IsNearest(x, k) {
      assert k == f || k == f + 1 by {
        assert f as real - 1.0 < k as real < f as real + 2.0;
      }
    }
  }

  /** Rounding keeps two, four or six decimals, takes the nearest such value, and of two equally near
      ones the even. */
  lemma RoundIff(x: real, k: int)
    ensures Round(x, Hundredths) == k as real / 100.0 <==> IsNearest(x * 100.0, k)
    ensures Round(x, TenThousandths) == k as real / 10000.0 <==> IsNearest(x * 10000.0, k)
    ensures Round(x, Millionths) == k as real / 1000000.0 <==> IsNearest(x * 1000000.0, k)
  {
    NearestIff(x * 100.0, k);
    NearestIff(x * 10000.0, k);
    NearestIff(x * 1000000.0, k);
  }

  lemma {:induction false} RoundMonotone(x: real, y: real, p: Places)
    requires x <= y
    ensures Round(x, p) <= Round(y, p)
  {
    match p
    case Hundredths => NearestMonotone(x * 100.0, y * 100.0);
    case TenThousandths => NearestMonotone(x * 10000.0, y * 10000.0);
    case Millionths => NearestMonotone(x * 1000000.0, y * 1000000.0);
  }

  /** A value that already has that many decimals is left alone. */
  lemma RoundExact(x: real, k: int, p: Places)
    requires x * Scale(p) == k as real
    ensures Round(x, p) == x
  {
    assert Nearest(k as real) == k;
  }

  lemma RoundError(x: real, p: Places)
    ensures x - 0.5 / Scale(p) <= Round(x, p) <= x + 0.5 / Scale(p)
  {
    match p
    case Hundredths => NearestError(x * 100.0);
    case TenThousandths => NearestError(x * 10000.0);
    case Millionths => NearestError(x * 1000000.0);
  }
}

module Sums {
  import opened Common

  lemma DivMonotone(x: real, y: real, s: real)
    requires x <= y && s > 0.0
    ensures x / s <= y / s
  {
    var d := (y - x) / s;
    assert d * s == y - x;
    assert d >= 0.0;
    assert y / s == x / s + d;
  }

  lemma ProductMonotone(a: real, b: real, c: real, d: real)
    requires 0.0 <= a <= b && 0.0 <= c <= d
    ensures 0.0 <= a * c <= b * d
  {
    assert a * c <= b * c <= b * d;
  }

  lemma SelfQuotient(x: real)
    requires x > 0.0
    ensures x / x == 1.0
  {
  }

  lemma DivSum(x: real, y: real, s: real)
    requires s > 0.0
    ensures (x + y) / s == x / s + y / s
  {
  }

  function Sum(s: seq<real>): real {
    if s == [] then 0.0 else Sum(Front(s)) + Last(s)
  }

  lemma {:induction false} SumAppend(s: seq<real>, t: seq<real>)
    ensures Sum(s + t) == Sum(s) + Sum(t)
  {
    if t == [] {
      assert s + t == s;
    } else {
      assert Front(s + t) == s + Front(t);
      SumAppend(s, Front(t));
    }
  }

  lemma {:induction false} SumMonotone(s: seq<real>, t: seq<real>)
    requires |s| == |t| && forall i :: 0 <= i < |s| ==> s[i] <= t[i]
    ensures Sum(s) <= Sum(t)
  {
    if s != [] {
      SumMonotone(Front(s), Front(t));
    }
  }

  lemma {:induction false} SumNonNegative(s: seq<real>)
    requires forall i :: 0 <= i < |s| ==> s[i] >= 0.0
    ensures Sum(s) >= 0.0
    ensures forall i :: 0 <= i < |s| ==> s[i] <= Sum(s)
  {
    if s != [] {
      SumNonNegative(Front(s));
    }
  }

  /** Replacing one entry changes the sum by the difference. */
  lemma {:induction false} SumUpdate(s: seq<real>, i: nat, x: real)
    requires i < |s|
    ensures Sum(s[i := x]) == Sum(s) - s[i] + x
  {
    if i == |s| - 1 {
      assert Front(s[i := x]) == Front(s);
    } else {
      assert Front(s[i := x]) == Front(s)[i := x];
      SumUpdate(Front(s), i, x);
    }
  }

  ghost function SetSum(keys: set<string>, f: string -> real): real {
    if keys == {} then 0.0
    else var k :| k in keys; f(k) + SetSum(keys - {k}, f)
  }

  lemma {:induction false} SetSumRemove(keys: set<string>, k: string, f: string -> real)
    requires k in keys
    ensures SetSum(keys, f) == f(k) + SetSum(keys - {k}, f)
    decreases keys
  {
    var c :| c in keys && SetSum(keys, f) == f(c) + SetSum(keys - {c}, f);
    if c != k {
      SetSumRemove(keys - {c}, k, f);
      SetSumRemove(keys - {k}, c, f);
      assert keys - {c} - {k} == keys - {k} - {c};
    }
  }

  lemma {:induction false} SetSumMonotone(keys: set<string>, f: string -> real, g: string -> real)
    requires forall k :: k in keys ==> f(k) <= g(k)
    ensures SetSum(keys, f) <= SetSum(keys, g)
    decreases keys
  {
    if keys != {} {
      var k :| k in keys;
      SetSumRemove(keys, k, f);
      SetSumRemove(keys, k, g);
      SetSumMonotone(keys - {k}, f, g);
    }
  }

  /** Keys that contribute nothing may be left out. */
  lemma {:induction false} SetSumSupport(some: set<string>, all: set<string>, f: string -> real, g: string -> real)
    requires some <= all
    requires forall k :: k in some ==> f(k) == g(k)
    requires forall k :: k in all - some ==> g(k) == 0.0
    ensures SetSum(some, f) == SetSum(all, g)
    decreases all
  {
    if all != {} {
      var k :| k in all;
      SetSumRemove(all, k, g);
      if k in some {
        SetSumRemove(some, k, f);
        SetSumSupport(some - {k}, all - {k}, f, g);
      } else {
        SetSumSupport(some, all - {k}, f, g);
      }
    }
  }
}
