/** Lists of scores as shares of their total, and how the shares move when one score changes. */
module NormalisedShares {
  import opened Common
  import opened Sums
  import opened BayesTraining

  /** Each entry over the total, or over 1 when the total is 0. */
  function Normalised(scores: seq<real>): seq<real> {
    Quotients(scores, TotalOrOne(scores))
  }

  lemma QuotientsCompare(a: real, t: real, b: real, u: real)
    requires t > 0.0 && u > 0.0
    ensures a / t < b / u <==> a * u < b * t
  {
    var x, y := a / t, b / u;
    assert x * t == a && y * u == b;
    assert a * u == x * (t * u) && b * t == y * (t * u);
    CompareScaled(x, y, t * u);
  }

  lemma CompareScaled(x: real, y: real, s: real)
    requires s > 0.0
    ensures x < y <==> x * s < y * s
  {
    if x < y {
      assert (y - x) * s > 0.0;
    } else {
      assert (x - y) * s >= 0.0;
    }
  }

  /** Changing one entry moves its share in the direction of the change and every other share the
      other way, as long as something else carries weight. */
  lemma OneEntryMovesShares(s: seq<real>, i: nat, x: real)
    requires i < |s| && x >= 0.0 && forall j :: 0 <= j < |s| ==> s[j] >= 0.0
    requires Sum(s) > s[i]
    ensures var t := s[i := x];
            && (Normalised(s)[i] < Normalised(t)[i] <==> s[i] < x)
            && (Normalised(t)[i] < Normalised(s)[i] <==> x < s[i])
            && forall j :: 0 <= j < |s| && j != i && s[j] > 0.0 ==>
                 && (Normalised(t)[j] < Normalised(s)[j] <==> s[i] < x)
                 && (Normalised(s)[j] < Normalised(t)[j] <==> x < s[i])
  {
    var t := s[i := x];
    var before, after := Sum(s), Sum(t);
    SumUpdate(s, i, x);
    SumNonNegative(s);
    assert before > 0.0 && after == before - s[i] + x && after > 0.0;
    OwnShareMoves(s[i], x, before, after);
    forall j | 0 <= j < |s| && j != i && s[j] > 0.0
      ensures Normalised(t)[j] < Normalised(s)[j] <==> s[i] < x
      ensures Normalised(s)[j] < Normalised(t)[j] <==> x < s[i]
    {
      assert t[j] == s[j];
      OtherShareMoves(s[j], before, after);
    }
  }

  lemma OwnShareMoves(a: real, x: real, total: real, total': real)
    requires 0.0 <= a < total && 0.0 <= x && total' == total - a + x
    ensures total' > 0.0
    ensures a / total < x / total' <==> a < x
    ensures x / total' < a / total <==> x < a
  {
    var rest := total - a;
    assert total == rest + a && total' == rest + x;
    OwnShareRises(a, x, rest);
    OwnShareRises(x, a, rest);
  }

  lemma OwnShareRises(a: real, x: real, rest: real)
    requires 0.0 <= a && 0.0 <= x && 0.0 < rest
    ensures a / (rest + a) < x / (rest + x) <==> a < x
  {
    QuotientsCompare(a, rest + a, x, rest + x);
    CrossProducts(a, x, rest);
    CompareScaled(a, x, rest);
  }

  lemma CrossProducts(a: real, x: real, rest: real)
    ensures a * (rest + x) < x * (rest + a) <==> a * rest < x * rest
  {
    var both := a * x;
    assert x * a == both;
    Distribute(a, rest, x);
    Distribute(x, rest, a);
  }

  lemma Distribute(a: real, r: real, x: real)
    ensures a * (r + x) == a * r + a * x
  {
  }

  lemma SameDenominator(a: real, b: real, t: real)
    requires t > 0.0
    ensures a / t < b / t <==> a < b
  {
    var x, y := a / t, b / t;
    assert x * t == a && y * t == b;
    CompareScaled(x, y, t);
  }

  lemma OtherShareMoves(a: real, total: real, total': real)
    requires a > 0.0 && total > 0.0 && total' > 0.0
    ensures a / total' < a / total <==> total < total'
    ensures a / total < a / total' <==> total' < total
  {
    QuotientsCompare(a, total', a, total);
    QuotientsCompare(a, total, a, total');
    CompareScaled(total, total', a);
    CompareScaled(total', total, a);
  }

  /** Untouched entries keep their order. */
  lemma OneEntryKeepsOrder(s: seq<real>, i: nat, x: real, j: nat, k: nat)
    requires i < |s| && j < |s| && k < |s| && j != i && k != i
    requires x >= 0.0 && forall m :: 0 <= m < |s| ==> s[m] >= 0.0
    ensures var t := s[i := x];
            Normalised(t)[j] < Normalised(t)[k] <==> Normalised(s)[j] < Normalised(s)[k]
  {
    var t := s[i := x];
    assert forall m :: 0 <= m < |t| ==> t[m] >= 0.0;
    SumNonNegative(s);
    SumNonNegative(t);
    SameDenominator(s[j], s[k], TotalOrOne(s));
    SameDenominator(s[j], s[k], TotalOrOne(t));
  }

  lemma PositiveProduct(a: real, b: real)
    requires a > 0.0 && b > 0.0
    ensures a * b > 0.0
  {
  }

  /** What raising one entry of a weight list must do. */
  ghost predicate RaisesOnly(before: seq<real>, after: seq<real>, i: nat)
    requires i < |before| == |after|
  {
    && before[i] < after[i]
    && (forall j :: 0 <= j < |before| && j != i ==> after[j] < before[j])
    && forall j, k :: 0 <= j < |before| && 0 <= k < |before| && j != i && k != i ==>
         (after[j] < after[k] <==> before[j] < before[k])
  }

  lemma {:induction false} RaisedScoreRaisesOnly(scores: seq<real>, scores': seq<real>, i: nat)
    requires i < |scores| && |scores| > 1 && forall j :: 0 <= j < |scores| ==> scores[j] > 0.0
    requires |scores'| == |scores| && scores'[i] > scores[i]
    requires forall j :: 0 <= j < |scores| && j != i ==> scores'[j] == scores[j]
    ensures RaisesOnly(Normalised(scores), Normalised(scores'), i)
  {
    var x := scores'[i];
    assert scores' == scores[i := x];
    TotalExceedsEntry(scores, i);
    OneEntryMovesShares(scores, i, x);
    forall j, k | 0 <= j < |scores| && 0 <= k < |scores| && j != i && k != i
      ensures Normalised(scores')[j] < Normalised(scores')[k] <==> Normalised(scores)[j] < Normalised(scores)[k]
    {
      OneEntryKeepsOrder(scores, i, x, j, k);
    }
  }

  lemma TotalExceedsEntry(s: seq<real>, i: nat)
    requires i < |s| && |s| > 1 && forall j :: 0 <= j < |s| ==> s[j] > 0.0
    ensures Sum(s) > s[i]
  {
    SumUpdate(s, i, 0.0);
    var t := s[i := 0.0];
    assert forall j :: 0 <= j < |t| ==> t[j] >= 0.0;
    SumNonNegative(t);
    var j := if i == 0 then 1 else 0;
    assert t[j] == s[j] > 0.0;
  }
}
