/** Stable sorting by descending score, shared by everything that ranks and cuts a list. */
module StableRanking {
  import opened Common

  datatype Scored<T> = Scored(item: T, score: real)

  // ----- stable sort by descending score

  /** Put `x` in front of the first entry that does not beat it. */
  function Ins<T>(x: Scored<T>, s: seq<Scored<T>>): seq<Scored<T>> {
    if s == [] then [x]
    else if s[0].score <= x.score then [x] + s
    else [s[0]] + Ins(x, s[1..])
  }

  function StableSort<T>(s: seq<Scored<T>>): seq<Scored<T>> {
    if s == [] then [] else Ins(s[0], StableSort(s[1..]))
  }

  ghost predicate Descending<T(!new)>(s: seq<Scored<T>>) {
    forall i, j :: 0 <= i <= j < |s| ==> s[i].score >= s[j].score
  }

  function WithScore<T>(s: seq<Scored<T>>, score: real): seq<Scored<T>> {
    if s == [] then [] else (if s[0].score == score then [s[0]] else []) + WithScore(s[1..], score)
  }

  lemma {:induction false} InsMultiset<T(!new)>(x: Scored<T>, s: seq<Scored<T>>)
    ensures multiset(Ins(x, s)) == multiset(s) + multiset{x}
  {
    if s != [] && s[0].score > x.score {
      InsMultiset(x, s[1..]);
      assert s == [s[0]] + s[1..];
    }
  }

  lemma {:induction false} InsDescending<T(!new)>(x: Scored<T>, s: seq<Scored<T>>)
    requires Descending(s)
    ensures Descending(Ins(x, s))
  {
    if s != [] && s[0].score > x.score {
      InsDescending(x, s[1..]);
      InsLength(x, s[1..]);
      var rest := Ins(x, s[1..]);
      forall i | 0 <= i < |rest| ensures rest[i].score <= s[0].score {
        assert rest[i] in rest;
      }
    }
  }

  lemma {:induction false} InsStable<T(!new)>(x: Scored<T>, s: seq<Scored<T>>, v: real)
    requires Descending(s)
    ensures WithScore(Ins(x, s), v) == (if x.score == v then [x] else []) + WithScore(s, v)
  {
    if s == [] {
      assert Ins(x, s) == [x] + s;
      WithScoreCons(x, s, v);
    } else if s[0].score <= x.score {
      WithScoreCons(x, s, v);
    } else {
      InsStable(x, s[1..], v);
      WithScoreCons(s[0], Ins(x, s[1..]), v);
      WithScoreCons(s[0], s[1..], v);
      assert s == [s[0]] + s[1..];
      SkipsEqual(x, s, v);
    }
  }

  /** An entry that moves past a better one has another score, so no tie is reordered. */
  lemma SkipsEqual<T(!new)>(x: Scored<T>, s: seq<Scored<T>>, v: real)
    requires s != [] && s[0].score > x.score
    ensures var head := if s[0].score == v then [s[0]] else [];
            var own := if x.score == v then [x] else [];
            head + (own + WithScore(s[1..], v)) == own + (head + WithScore(s[1..], v))
  {
  }

  lemma WithScoreCons<T(!new)>(x: Scored<T>, s: seq<Scored<T>>, v: real)
    ensures WithScore([x] + s, v) == (if x.score == v then [x] else []) + WithScore(s, v)
  {
    assert ([x] + s)[1..] == s;
  }

  /** The sort orders by score, keeps every entry, and keeps the order of entries with equal scores. */
  lemma {:induction false} StableSortCorrect<T(!new)>(s: seq<Scored<T>>)
    ensures Descending(StableSort(s))
    ensures multiset(StableSort(s)) == multiset(s)
    ensures forall v :: WithScore(StableSort(s), v) == WithScore(s, v)
  {
    if s != [] {
      var rest := StableSort(s[1..]);
      StableSortCorrect(s[1..]);
      InsDescending(s[0], rest);
      InsMultiset(s[0], rest);
      forall v ensures WithScore(StableSort(s), v) == WithScore(s, v) {
        InsStable(s[0], rest, v);
      }
      assert s == [s[0]] + s[1..];
    }
  }

  // ----- removing an entry that enough earlier ones dominate

  function CountAtLeast<T>(s: seq<Scored<T>>, score: real): nat {
    if s == [] then 0 else (if s[0].score >= score then 1 else 0) + CountAtLeast(s[1..], score)
  }

  lemma {:induction false} InsBefore<T(!new)>(p: Scored<T>, a: seq<Scored<T>>, b: seq<Scored<T>>)
    requires b == [] || b[0].score <= p.score
    ensures Ins(p, a + b) == Ins(p, a) + b
  {
    if a == [] {
      assert a + b == b;
    } else {
      assert (a + b)[1..] == a[1..] + b;
      InsBefore(p, a[1..], b);
    }
  }

  lemma {:induction false} InsAfter<T(!new)>(p: Scored<T>, a: seq<Scored<T>>, b: seq<Scored<T>>)
    requires forall x :: x in a ==> x.score > p.score
    ensures Ins(p, a + b) == a + Ins(p, b)
  {
    if a == [] {
      assert a + b == b;
    } else {
      assert a[0] in a;
      assert (a + b)[1..] == a[1..] + b;
      InsAfter(p, a[1..], b);
    }
  }

  lemma {:induction false} InsLength<T(!new)>(p: Scored<T>, s: seq<Scored<T>>)
    ensures |Ins(p, s)| == |s| + 1
    ensures forall x :: x in Ins(p, s) <==> x == p || x in s
  {
    if s != [] {
      InsLength(p, s[1..]);
      assert s == [s[0]] + s[1..];
    }
  }

  /** In the sorted list, `e` stands after every earlier entry that scores at least as much. */
  lemma {:induction false} SplitAt<T(!new)>(before: seq<Scored<T>>, e: Scored<T>, after: seq<Scored<T>>)
    returns (x: seq<Scored<T>>, y: seq<Scored<T>>)
    ensures StableSort(before + [e] + after) == x + [e] + y
    ensures StableSort(before + after) == x + y
    ensures |x| >= CountAtLeast(before, e.score)
    ensures forall h :: h in x ==> h.score >= e.score
    ensures forall h :: h in y ==> h.score <= e.score
  {
    if before == [] {
      assert before + [e] + after == [e] + after && ([e] + after)[1..] == after && before + after == after;
      StableSortCorrect(after);
      x, y := SplitIns(e, StableSort(after));
    } else {
      var p := before[0];
      var x', y' := SplitAt(before[1..], e, after);
      assert (before + [e] + after)[0] == p && (before + [e] + after)[1..] == before[1..] + [e] + after;
      assert (before + after)[0] == p && (before + after)[1..] == before[1..] + after;
      x, y := SplitStep(p, x', e, y');
    }
  }

  lemma SplitStep<T(!new)>(p: Scored<T>, x: seq<Scored<T>>, e: Scored<T>, y: seq<Scored<T>>)
    returns (x': seq<Scored<T>>, y': seq<Scored<T>>)
    requires forall h :: h in x ==> h.score >= e.score
    requires forall h :: h in y ==> h.score <= e.score
    ensures Ins(p, x + [e] + y) == x' + [e] + y' && Ins(p, x + y) == x' + y'
    ensures |x'| == |x| + if p.score >= e.score then 1 else 0
    ensures forall h :: h in x' ==> h.score >= e.score
    ensures forall h :: h in y' ==> h.score <= e.score
  {
    assert x + [e] + y == x + ([e] + y);
    if p.score >= e.score {
      InsBefore(p, x, [e] + y);
      InsBefore(p, x, y);
      InsLength(p, x);
      x', y' := Ins(p, x), y;
      assert x' + [e] + y == x' + ([e] + y);
    } else {
      InsAfter(p, x, [e] + y);
      InsAfter(p, x, y);
      InsAfter(p, [e], y);
      InsLength(p, y);
      x', y' := x, Ins(p, y);
      assert x + [e] + y' == x + ([e] + y');
    }
  }

  lemma {:induction false} SplitIns<T(!new)>(e: Scored<T>, s: seq<Scored<T>>)
    returns (x: seq<Scored<T>>, y: seq<Scored<T>>)
    requires Descending(s)
    ensures Ins(e, s) == x + [e] + y && s == x + y
    ensures forall h :: h in x ==> h.score >= e.score
    ensures forall h :: h in y ==> h.score <= e.score
  {
    if s == [] || s[0].score <= e.score {
      x, y := [], s;
      assert [] + [e] + s == [e] + s;
    } else {
      var x';
      x', y := SplitIns(e, s[1..]);
      x := [s[0]] + x';
      assert [s[0]] + (x' + [e] + y) == x + [e] + y;
      assert s == [s[0]] + s[1..];
    }
  }

  lemma {:induction false} DropDominated<T(!new)>(before: seq<Scored<T>>, dominated: seq<Scored<T>>,
                                           after: seq<Scored<T>>, k: nat)
    requires forall e :: e in dominated ==> CountAtLeast(before, e.score) >= k
    ensures Take(StableSort(before + dominated + after), k) == Take(StableSort(before + after), k)
  {
    if dominated == [] {
      assert before + dominated + after == before + after;
    } else {
      var e := dominated[0];
      assert before + dominated + after == before + [e] + (dominated[1..] + after);
      assert before + (dominated[1..] + after) == before + dominated[1..] + after;
      var x, y := SplitAt(before, e, dominated[1..] + after);
      TakeSkips(x, e, y, k);
      DropDominated(before, dominated[1..], after, k);
    }
  }

  lemma TakeSkips<T(!new)>(x: seq<Scored<T>>, e: Scored<T>, y: seq<Scored<T>>, k: nat)
    requires |x| >= k
    ensures Take(x + [e] + y, k) == Take(x + y, k)
  {
    assert (x + [e] + y)[..k] == x[..k];
    assert Take(x + y, k) == x[..k];
  }

  lemma {:induction false} CountConcat<T(!new)>(a: seq<Scored<T>>, b: seq<Scored<T>>, score: real)
    ensures CountAtLeast(a + b, score) == CountAtLeast(a, score) + CountAtLeast(b, score)
  {
    if a == [] {
      assert a + b == b;
    } else {
      assert (a + b)[1..] == a[1..] + b;
      CountConcat(a[1..], b, score);
    }
  }

  lemma PrefixIsBest<T(!new)>(sorted: seq<Scored<T>>, k: nat)
    requires Descending(sorted)
    ensures var top := Take(sorted, k);
            && Descending(top) && multiset(top) <= multiset(sorted)
            && forall h: Scored<T>, t: Scored<T> ::
                 h in multiset(sorted) - multiset(top) && t in top ==> h.score <= t.score
  {
    var top := Take(sorted, k);
    var rest := sorted[|top|..];
    assert sorted == top + rest;
    assert multiset(sorted) == multiset(top) + multiset(rest);
    PrefixBeatsRest(top, rest);
  }

  lemma PrefixBeatsRest<T(!new)>(top: seq<Scored<T>>, rest: seq<Scored<T>>)
    requires Descending(top + rest)
    ensures forall h: Scored<T>, t: Scored<T> :: h in multiset(rest) && t in top ==> h.score <= t.score
  {
    forall h: Scored<T>, t: Scored<T> | h in multiset(rest) && t in top ensures h.score <= t.score {
      assert h in rest;
      var i :| 0 <= i < |rest| && rest[i] == h;
      var j :| 0 <= j < |top| && top[j] == t;
      assert (top + rest)[|top| + i] == h && (top + rest)[j] == t;
    }
  }
}
