/** Small datatypes and sequence facts shared by the models. */
module Common {

  datatype Option<+T> = None | Some(value: T)

  datatype Result<+T, +E> = Ok(value: T) | Err(error: E)

  ghost predicate Distinct<T(!new)>(s: seq<T>) {
    forall i, j :: 0 <= i < j < |s| ==> s[i] != s[j]
  }

  /** Positions below `n`, each once and in order. */
  ghost predicate Ascending(picks: seq<nat>, n: nat) {
    && (forall k :: 0 <= k < |picks| ==> picks[k] < n)
    && forall k, l :: 0 <= k < l < |picks| ==> picks[k] < picks[l]
  }

  lemma AppendPick(picks: seq<nat>, n: nat)
    requires Ascending(picks, n)
    ensures Ascending(picks + [n], n + 1) && Ascending(picks, n + 1)
    ensures n !in picks && forall i :: i in picks + [n] <==> i in picks || i == n
  {
  }

  /** The positions below `n` that are hit. */
  ghost function Positions(n: nat, hit: nat -> bool): set<nat> {
    set i: nat | i < n && hit(i)
  }

  lemma PositionsStep(n: nat, hit: nat -> bool)
    ensures |Positions(n + 1, hit)| == |Positions(n, hit)| + if hit(n) then 1 else 0
  {
    assert Positions(n + 1, hit) == Positions(n, hit) + if hit(n) then {n} else {};
  }

  function Elements<T>(s: seq<T>): set<T> {
    set x | x in s
  }

  function Last<T>(s: seq<T>): T
    requires s != []
  {
    s[|s| - 1]
  }

  function Front<T>(s: seq<T>): seq<T>
    requires s != []
  {
    s[..|s| - 1]
  }

  function Flat<T>(parts: seq<seq<T>>): seq<T> {
    if parts == [] then [] else Flat(Front(parts)) + Last(parts)
  }

  function Take<T>(s: seq<T>, k: nat): seq<T> {
    if |s| <= k then s else s[..k]
  }

  /** A sequence without repetitions has as many elements as it has positions. */
  lemma {:induction false} DistinctCardinality<T(!new)>(s: seq<T>)
    requires Distinct(s)
    ensures |Elements(s)| == |s|
  {
    if s == [] {
      assert Elements(s) == {};
    } else {
      DistinctCardinality(Front(s));
      assert Elements(s) == Elements(Front(s)) + {Last(s)};
      assert Last(s) !in Elements(Front(s));
    }
  }

  lemma SubsetCardinality<T>(a: set<T>, b: set<T>)
    requires a <= b
    ensures |a| <= |b|
    ensures |a| == |b| ==> a == b
  {
    assert b == a + (b - a);
  }

  // ----- decimal notation

  function Digit(d: nat): char
    requires d < 10
  {
    ('0' as int + d) as char
  }

  function Decimal(n: nat): string {
    if n < 10 then [Digit(n)] else Decimal(n / 10) + [Digit(n % 10)]
  }

  function ParseDecimal(s: string): int {
    if s == [] then 0 else ParseDecimal(Front(s)) * 10 + (Last(s) as int - '0' as int)
  }

  lemma {:induction false} DecimalRoundTrip(n: nat)
    ensures ParseDecimal(Decimal(n)) == n
  {
    if n < 10 {
      assert Front([Digit(n)]) == [];
    } else {
      DecimalRoundTrip(n / 10);
      assert Front(Decimal(n)) == Decimal(n / 10);
    }
  }

  lemma DecimalInjective(m: nat, n: nat)
    ensures Decimal(m) == Decimal(n) ==> m == n
  {
    DecimalRoundTrip(m);
    DecimalRoundTrip(n);
  }
}
