/** What a flat inner-join query means: three-valued evaluation over environments of rows. */
module SqlSemantics {
  import opened Common
  import opened SqlSyntax

  datatype Value = Null | Text(s: string) | Flag(b: bool)

  datatype Truth = Yes | No | Unknown

  /** Whatever the fixed operators do not cover: other functions and comparisons, and the
      truth of a text used as a condition. */
  datatype Interp = Interp(call: (string, seq<Value>) -> Value, truthy: string -> bool)

  type Row = map<string, Value>
  type Database = map<string, seq<Row>>

  /** One row for each table of FROM, in order. */
  type Env = seq<Row>

  function Field(row: Row, name: string): Value {
    if name in row then row[name] else Null
  }

  function Lookup(from: seq<Table>, env: Env, qualifier: Option<string>, name: string): Value
    requires |env| == |from|
  {
    if from == [] then Null
    else if qualifier == None || qualifier.value == from[0].Qualifier() then Field(env[0], name)
    else Lookup(from[1..], env[1..], qualifier, name)
  }

  function TruthOf(v: Value, interp: Interp): Truth {
    match v
    case Null => Unknown
    case Flag(b) => if b then Yes else No
    case Text(s) => if interp.truthy(s) then Yes else No
  }

  function OfTruth(t: Truth): Value {
    match t case Yes => Flag(true) case No => Flag(false) case Unknown => Null
  }

  function AndTruth(a: Truth, b: Truth): Truth {
    if a == No || b == No then No else if a == Yes && b == Yes then Yes else Unknown
  }

  function NotTruth(a: Truth): Truth {
    match a case Yes => No case No => Yes case Unknown => Unknown
  }

  function EqualsValue(a: Value, b: Value): Value {
    if a == Null || b == Null then Null else Flag(a == b)
  }

  function InValue(v: Value, choices: seq<Value>): Value {
    if v == Null then Null
    else if v in choices then Flag(true)
    else if Null in choices then Null
    else Flag(false)
  }

  function LikeValue(v: Value, pattern: Value): Value {
    if v == Null || pattern == Null then Null
    else Flag(v.Text? && pattern.Text? && LikeMatches(v.s, pattern.s))
  }

  /** SQL LIKE: `%` any run, `_` any one character, backslash escapes the next one. */
  predicate LikeMatches(s: string, p: string)
    decreases |s| + |p|
  {
    if p == [] then s == []
    else if p[0] == '%' then LikeMatches(s, p[1..]) || (s != [] && LikeMatches(s[1..], p))
    else if p[0] == '\\' && |p| > 1 then s != [] && s[0] == p[1] && LikeMatches(s[1..], p[2..])
    else s != [] && (p[0] == '_' || s[0] == p[0]) && LikeMatches(s[1..], p[1..])
  }

  function Eval(e: Expr, from: seq<Table>, env: Env, interp: Interp): Value
    requires |env| == |from|
  {
    match e
    case Column(q, name) => Lookup(from, env, q, name)
    case Literal(text) => Text(text)
    case Star => Null
    case Equals(l, r) => EqualsValue(Eval(l, from, env, interp), Eval(r, from, env, interp))
    case And(l, r) =>
      OfTruth(AndTruth(TruthOf(Eval(l, from, env, interp), interp), TruthOf(Eval(r, from, env, interp), interp)))
    case Or(l, r) =>
      OfTruth(NotTruth(AndTruth(NotTruth(TruthOf(Eval(l, from, env, interp), interp)),
                                NotTruth(TruthOf(Eval(r, from, env, interp), interp)))))
    case Not(x) => OfTruth(NotTruth(TruthOf(Eval(x, from, env, interp), interp)))
    case IsNull(x) => Flag(Eval(x, from, env, interp) == Null)
    case Like(x, p) => LikeValue(Eval(x, from, env, interp), Eval(p, from, env, interp))
    case InList(x, cs) => InValue(Eval(x, from, env, interp), EvalAll(cs, from, env, interp))
    case Call(op, args) => interp.call(op, EvalAll(args, from, env, interp))
  }

  function EvalAll(es: seq<Expr>, from: seq<Table>, env: Env, interp: Interp): (vs: seq<Value>)
    requires |env| == |from|
    ensures |vs| == |es|
  {
    if es == [] then [] else [Eval(es[0], from, env, interp)] + EvalAll(es[1..], from, env, interp)
  }

  predicate Holds(e: Expr, from: seq<Table>, env: Env, interp: Interp)
    requires |env| == |from|
  {
    TruthOf(Eval(e, from, env, interp), interp) == Yes
  }

  predicate AllHold(es: seq<Expr>, from: seq<Table>, env: Env, interp: Interp)
    requires |env| == |from|
  {
    forall e :: e in es ==> Holds(e, from, env, interp)
  }

  function KeepIf<T>(s: seq<T>, p: T -> bool): seq<T> {
    if s == [] then [] else (if p(s[0]) then [s[0]] else []) + KeepIf(s[1..], p)
  }

  function TableRows(db: Database, name: string): seq<Row> {
    if name in db then db[name] else []
  }

  function PrependRow(row: Row, envs: seq<Env>): seq<Env> {
    if envs == [] then [] else [[row] + envs[0]] + PrependRow(row, envs[1..])
  }

  function PrependRows(rows: seq<Row>, envs: seq<Env>): seq<Env> {
    if rows == [] then [] else PrependRow(rows[0], envs) + PrependRows(rows[1..], envs)
  }

  /** The cross product of the FROM tables, in row order. */
  function Product(from: seq<Table>, db: Database): (envs: seq<Env>) {
    if from == [] then [[]]
    else PrependRows(TableRows(db, from[0].name), Product(from[1..], db))
  }

  predicate Selected(q: Select, env: Env, interp: Interp) {
    && |env| == |q.from|
    && AllHold(q.on, q.from, env, interp)
    && (q.where.Some? ==> Holds(q.where.value, q.from, env, interp))
  }

  function SelectedBy(q: Select, interp: Interp): Env -> bool {
    env => Selected(q, env, interp)
  }

  function JoinedRows(q: Select, db: Database, interp: Interp): seq<Env> {
    KeepIf(Product(q.from, db), SelectedBy(q, interp))
  }

  /** Name resolution: distinct qualifiers, known tables, every column bound. */
  ghost predicate WellFormed(q: Select, db: Database) {
    && DistinctQualifiers(q.from)
    && (forall t :: t in q.from ==> t.name in db)
    && (forall c :: c in QueryNodes(q) && c.Column? ==> Bound(c, q.from))
  }

  ghost predicate DistinctQualifiers(from: seq<Table>) {
    forall i, j :: 0 <= i < j < |from| ==> from[i].Qualifier() != from[j].Qualifier()
  }

  ghost predicate Bound(c: Expr, from: seq<Table>)
    requires c.Column?
  {
    match c.qualifier
    case None => |from| == 1
    case Some(q) => exists t :: t in from && t.Qualifier() == q
  }

  /** The rows a query joins, or the database's refusal to run it. */
  ghost function Run(q: Select, db: Database, interp: Interp): Option<seq<Env>> {
    if WellFormed(q, db) then Some(JoinedRows(q, db, interp)) else None
  }

  function Page<R>(rows: seq<R>, offset: nat, limit: Limit): seq<R> {
    var rest := if |rows| <= offset then [] else rows[offset..];
    match limit case AtMost(n) => Take(rest, n) case _ => rest
  }

  /** The answer: any projection, grouping and ordering `tail` of the joined rows, then paging. */
  ghost function Answer<R>(q: Select, db: Database, interp: Interp,
                           tail: (seq<Expr>, seq<Table>, seq<Env>) -> seq<R>): Option<seq<R>> {
    match Run(q, db, interp)
    case None => None
    case Some(rows) => Some(Page(tail(q.items, q.from, rows), q.offset, q.limit))
  }

  // ----- facts about the semantics

  /** A comparison with null is neither true nor false. Between other values equality holds exactly for
      the same value, and a like test answers. */
  lemma NullMeaning(a: Value, b: Value)
    ensures EqualsValue(a, b) == Flag(true) <==> a == b && a != Null
    ensures EqualsValue(a, b) == Flag(false) <==> a != b && a != Null && b != Null
    ensures EqualsValue(a, b) == Null <==> LikeValue(a, b) == Null
    ensures LikeValue(a, b) == Null <==> a == Null || b == Null
  {
  }

  /** `IN` is the three-valued disjunction of the equalities with the choices. */
  lemma InMeaning(v: Value, choices: seq<Value>)
    requires choices != []
    ensures InValue(v, choices) == Flag(true)
       <==> exists i :: 0 <= i < |choices| && EqualsValue(v, choices[i]) == Flag(true)
    ensures InValue(v, choices) == Flag(false)
       <==> forall i :: 0 <= i < |choices| ==> EqualsValue(v, choices[i]) == Flag(false)
    ensures InValue(v, choices) != Flag(true) && InValue(v, choices) != Flag(false) ==> InValue(v, choices) == Null
  {
    assert EqualsValue(v, choices[0]) == Flag(false) ==> v != Null;
    if v != Null && Null in choices && v !in choices {
      var i :| 0 <= i < |choices| && choices[i] == Null;
      assert EqualsValue(v, choices[i]) == Null;
    }
    if v in choices && v != Null {
      var i :| 0 <= i < |choices| && choices[i] == v;
      assert EqualsValue(v, choices[i]) == Flag(true);
    }
  }

  lemma {:induction false} KeepIfCongruent<T>(s: seq<T>, p: T -> bool, q: T -> bool)
    requires forall x :: x in s ==> p(x) == q(x)
    ensures KeepIf(s, p) == KeepIf(s, q)
  {
    if s != [] {
      assert s[0] in s;
      KeepIfCongruent(s[1..], p, q);
    }
  }

  function Both<T>(p: T -> bool, q: T -> bool): T -> bool {
    x => p(x) && q(x)
  }

  lemma {:induction false} KeepIfTwice<T>(s: seq<T>, p: T -> bool, q: T -> bool)
    ensures KeepIf(KeepIf(s, p), q) == KeepIf(s, Both(p, q))
  {
    if s != [] {
      KeepIfTwice(s[1..], p, q);
      var kept := KeepIf(s[1..], p);
      if p(s[0]) {
        assert KeepIf(s, p) == [s[0]] + kept && ([s[0]] + kept)[1..] == kept;
      } else {
        assert KeepIf(s, p) == kept;
      }
    }
  }

  lemma KeepIfCons<T>(x: T, s: seq<T>, p: T -> bool)
    ensures KeepIf([x] + s, p) == (if p(x) then [x] else []) + KeepIf(s, p)
  {
    assert ([x] + s)[1..] == s;
  }

  lemma {:induction false} KeepIfConcat<T>(a: seq<T>, b: seq<T>, p: T -> bool)
    ensures KeepIf(a + b, p) == KeepIf(a, p) + KeepIf(b, p)
  {
    if a == [] {
      assert a + b == b;
    } else {
      var x, rest := a[0], a[1..];
      KeepIfConcat(rest, b, p);
      KeepIfCons(x, rest + b, p);
      KeepIfCons(x, rest, p);
      assert a == [x] + rest && a + b == [x] + (rest + b);
    }
  }

  lemma {:induction false} KeptElements<T>(s: seq<T>, p: T -> bool)
    ensures forall x :: x in KeepIf(s, p) <==> x in s && p(x)
  {
    if s != [] {
      KeptElements(s[1..], p);
      assert s == [s[0]] + s[1..];
    }
  }

  lemma {:induction false} ProductShape(from: seq<Table>, db: Database)
    ensures forall env :: env in Product(from, db) ==> |env| == |from|
  {
    if from != [] {
      ProductShape(from[1..], db);
      PrependRowsShape(TableRows(db, from[0].name), Product(from[1..], db), |from| - 1);
    }
  }

  lemma {:induction false} PrependRowsShape(rows: seq<Row>, envs: seq<Env>, n: nat)
    requires forall env :: env in envs ==> |env| == n
    ensures forall env :: env in PrependRows(rows, envs) ==> |env| == n + 1
  {
    if rows != [] {
      PrependRowShape(rows[0], envs, n);
      PrependRowsShape(rows[1..], envs, n);
    }
  }

  lemma {:induction false} PrependRowShape(row: Row, envs: seq<Env>, n: nat)
    requires forall env :: env in envs ==> |env| == n
    ensures forall env :: env in PrependRow(row, envs) ==> |env| == n + 1
  {
    if envs != [] {
      PrependRowShape(row, envs[1..], n);
    }
  }

  lemma {:induction false} LookupAt(from: seq<Table>, env: Env, i: nat, name: string)
    requires |env| == |from| && i < |from| && DistinctQualifiers(from)
    ensures Lookup(from, env, Some(from[i].Qualifier()), name) == Field(env[i], name)
  {
    if i > 0 {
      assert from[0].Qualifier() != from[i].Qualifier();
      LookupAt(from[1..], env[1..], i - 1, name);
    }
  }

  // ----- LIKE with a trailing `%` is a prefix test exactly for patterns without special characters

  predicate PlainPath(p: string) {
    forall i :: 0 <= i < |p| ==> p[i] !in {'%', '_', '\\'}
  }

  lemma {:induction false} PercentMatchesAll(s: string)
    ensures LikeMatches(s, "%")
  {
    assert "%"[1..] == [];
    if s != [] {
      PercentMatchesAll(s[1..]);
    }
  }

  lemma {:induction false} PlainLikeIsPrefix(s: string, p: string)
    requires PlainPath(p)
    ensures LikeMatches(s, p + "%") <==> p <= s
  {
    if p == [] {
      assert p + "%" == "%";
      PercentMatchesAll(s);
    } else {
      assert (p + "%")[0] == p[0];
      assert (p + "%")[1..] == p[1..] + "%";
      if s != [] {
        PlainLikeIsPrefix(s[1..], p[1..]);
        assert p <= s <==> p[0] == s[0] && p[1..] <= s[1..];
      }
    }
  }

  /** Some text matches `p%` and is no longer than `p`. */
  lemma {:induction false} ShortMatch(p: string) returns (s: string)
    ensures LikeMatches(s, p + "%") && |s| <= |p|
  {
    if p == [] {
      s := [];
      assert p + "%" == "%";
      PercentMatchesAll(s);
    } else {
      var pattern := p + "%";
      assert pattern[0] == p[0] && pattern[1..] == p[1..] + "%";
      if p[0] == '%' {
        s := ShortMatch(p[1..]);
      } else if p[0] == '\\' {
        if |p| == 1 {
          s := "%";
          assert pattern[1] == '%' && pattern[2..] == [] && s[1..] == [];
        } else {
          var t := ShortMatch(p[2..]);
          s := [p[1]] + t;
          assert pattern[1] == p[1] && pattern[2..] == p[2..] + "%" && s[1..] == t;
        }
      } else {
        var t := ShortMatch(p[1..]);
        s := [p[0]] + t;
        assert s[1..] == t;
      }
    }
  }

  /** A pattern with a special character matches some text outside the prefix. */
  lemma {:induction false} SpecialPathLeaks(p: string) returns (s: string)
    requires !PlainPath(p)
    ensures LikeMatches(s, p + "%") && !(p <= s)
  {
    var pattern := p + "%";
    assert pattern[0] == p[0] && pattern[1..] == p[1..] + "%";
    if p[0] == '%' {
      s := ShortMatch(p[1..]);
    } else if p[0] == '_' {
      var t := ShortMatch(p[1..]);
      s := "x" + t;
      assert s[1..] == t && s[0] != p[0];
    } else if p[0] == '\\' {
      if |p| == 1 {
        s := "%";
        assert pattern[1] == '%' && pattern[2..] == [] && s[1..] == [];
      } else {
        var t := ShortMatch(p[2..]);
        s := [p[1]] + t;
        assert pattern[1] == p[1] && pattern[2..] == p[2..] + "%" && s[1..] == t;
      }
    } else {
      var t := SpecialPathLeaks(p[1..]);
      s := [p[0]] + t;
      assert s[1..] == t;
      assert p <= s ==> p[1..] <= s[1..];
    }
  }

  ghost predicate MatchesExtensionsOnly(p: string, pattern: string) {
    forall s :: LikeMatches(s, pattern) <==> p <= s
  }

  lemma PrefixScopeIffPlain(p: string)
    ensures MatchesExtensionsOnly(p, p + "%") <==> PlainPath(p)
  {
    if PlainPath(p) {
      forall s ensures LikeMatches(s, p + "%") <==> p <= s {
        PlainLikeIsPrefix(s, p);
      }
    } else {
      var s := SpecialPathLeaks(p);
    }
  }
}
