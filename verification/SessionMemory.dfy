/** The short-term memory of one chat session: sanitised messages and context in the key-value
    store, and a summary row in the database. */
module SessionMemory {
  import opened Common

  datatype Json =
    | Null
    | Atom(text: string)
    | Arr(items: seq<Json>)
    | Obj(fields: map<string, Json>)

  const BLOCKED_KEYS := {
    "full_sql_result", "raw_sql_result", "sql_result", "sql_results", "query_result", "rows", "dataframe",
    "identity_card", "id_card", "id_card_no", "health_detail", "health_details", "face_image", "raw_video"}

  function LowerChar(c: char): char {
    if 'A' <= c <= 'Z' then (c as int + 32) as char else c
  }

  function Lower(s: string): string {
    seq(|s|, i requires 0 <= i < |s| => LowerChar(s[i]))
  }

  predicate Blocked(key: string) {
    Lower(key) in BLOCKED_KEYS
  }

  /** `sanitize_memory_payload` */
  function Sanitize(v: Json): Json {
    match v
    case Arr(items) => Arr(seq(|items|, i requires 0 <= i < |items| => Sanitize(items[i])))
    case Obj(fields) => Obj(map k | k in fields && !Blocked(k) :: Sanitize(fields[k]))
    case _ => v
  }

  function SanitizeFields(fields: map<string, Json>): map<string, Json> {
    map k | k in fields && !Blocked(k) :: Sanitize(fields[k])
  }

  function NonNull(fields: map<string, Json>): map<string, Json> {
    map k | k in fields && fields[k] != Null :: fields[k]
  }

  /** The specification of `merge_session_context`: a null never overwrites. */
  function Merge(existing: map<string, Json>, incoming: map<string, Json>): map<string, Json> {
    existing + NonNull(incoming)
  }

  /** A merged context has the keys of both sides that a null does not withhold; where the newer side
      has a value it wins, and a null or a missing key leaves the older value. */
  lemma MergeMeaning(existing: map<string, Json>, incoming: map<string, Json>, key: string)
    ensures key in Merge(existing, incoming)
       <==> key in existing || (key in incoming && incoming[key] != Null)
    ensures key in incoming && incoming[key] != Null ==> Merge(existing, incoming)[key] == incoming[key]
    ensures key in existing && (key in incoming ==> incoming[key] == Null) ==>
              Merge(existing, incoming)[key] == existing[key]
  {
  }

  // ----- what sanitising means

  datatype PathStep = Field(key: string) | Index(i: nat)

  /** The value at the end of a path of keys and indices. */
  function Lookup(v: Json, path: seq<PathStep>): Option<Json> {
    if path == [] then Some(v)
    else match (v, path[0])
         case (Obj(fields), Field(k)) => if k in fields then Lookup(fields[k], path[1..]) else None
         case (Arr(items), Index(i)) => if i < |items| then Lookup(items[i], path[1..]) else None
         case _ => None
  }

  predicate PathBlocked(path: seq<PathStep>) {
    exists i :: 0 <= i < |path| && path[i].Field? && Blocked(path[i].key)
  }

  /** Sanitising removes what lies under a blocked key, at any depth, and nothing else. */
  lemma {:induction false} SanitizeAtPath(v: Json, path: seq<PathStep>)
    ensures PathBlocked(path) ==> path != [] && Lookup(Sanitize(v), path) == None
    ensures !PathBlocked(path) ==>
              Lookup(Sanitize(v), path)
              == match Lookup(v, path) case None => None case Some(found) => Some(Sanitize(found))
  {
    if path != [] {
      var rest := path[1..];
      assert PathBlocked(rest) ==> PathBlocked(path) by {
        if PathBlocked(rest) {
          var i :| 0 <= i < |rest| && rest[i].Field? && Blocked(rest[i].key);
          assert path[i + 1] == rest[i];
        }
      }
      assert PathBlocked(path) ==> PathBlocked(rest) || (path[0].Field? && Blocked(path[0].key)) by {
        if PathBlocked(path) {
          var i :| 0 <= i < |path| && path[i].Field? && Blocked(path[i].key);
          assert i > 0 ==> path[i] == rest[i - 1];
        }
      }
      match (v, path[0]) {
        case (Obj(fields), Field(k)) => if k in fields { SanitizeAtPath(fields[k], rest); }
        case (Arr(items), Index(i)) => if i < |items| { SanitizeAtPath(items[i], rest); }
        case _ =>
      }
    }
  }

  /** No blocked key at any depth. */
  ghost predicate Clean(v: Json) {
    match v
    case Arr(items) => forall i :: 0 <= i < |items| ==> Clean(items[i])
    case Obj(fields) => forall k :: k in fields ==> !Blocked(k) && Clean(fields[k])
    case _ => true
  }

  lemma {:induction false} SanitizeCleans(v: Json)
    ensures Clean(Sanitize(v))
  {
    match v {
      case Arr(items) => forall i | 0 <= i < |items| { SanitizeCleans(items[i]); }
      case Obj(fields) => forall k | k in fields { SanitizeCleans(fields[k]); }
      case _ =>
    }
  }

  lemma {:induction false} CleanIsFixed(v: Json)
    ensures Clean(v) ==> Sanitize(v) == v
  {
    match v {
      case Arr(items) => forall i | 0 <= i < |items| { CleanIsFixed(items[i]); }
      case Obj(fields) => forall k | k in fields { CleanIsFixed(fields[k]); }
      case _ =>
    }
  }

  /** The values sanitising leaves alone are exactly the clean ones; so it is idempotent. */
  lemma SanitizeFixesExactlyClean(v: Json)
    ensures Sanitize(v) == v <==> Clean(v)
    ensures Sanitize(Sanitize(v)) == Sanitize(v)
  {
    SanitizeCleans(v);
    CleanIsFixed(v);
    CleanIsFixed(Sanitize(v));
  }

  lemma SanitizeUnion(a: map<string, Json>, b: map<string, Json>)
    ensures SanitizeFields(a + b) == SanitizeFields(a) + SanitizeFields(b)
  {
  }

  lemma SanitizeNonNull(fields: map<string, Json>)
    ensures SanitizeFields(NonNull(fields)) == NonNull(SanitizeFields(fields))
  {
  }

  lemma SanitizeFieldsTwice(fields: map<string, Json>)
    ensures SanitizeFields(SanitizeFields(fields)) == SanitizeFields(fields)
  {
    forall k | k in fields ensures Sanitize(Sanitize(fields[k])) == Sanitize(fields[k]) {
      SanitizeFixesExactlyClean(fields[k]);
    }
  }

  /** Sanitising commutes with merging, and sanitising the older context first makes no difference. */
  lemma SanitizeCommutesWithMerge(existing: map<string, Json>, incoming: map<string, Json>)
    ensures SanitizeFields(Merge(existing, incoming)) == Merge(SanitizeFields(existing), SanitizeFields(incoming))
    ensures SanitizeFields(Merge(SanitizeFields(existing), incoming)) == SanitizeFields(Merge(existing, incoming))
  {
    SanitizeUnion(existing, NonNull(incoming));
    SanitizeUnion(SanitizeFields(existing), NonNull(incoming));
    SanitizeNonNull(incoming);
    SanitizeFieldsTwice(existing);
  }

  // ----- the store

  const WINDOW := 20

  datatype Entry = Entry(messages: seq<Json>, context: map<string, Json>, summary: Option<string>, messageCount: nat)
  datatype Row = Row(summary: Option<string>, messageCount: nat)
  datatype State = State(cached: Option<Entry>, row: Option<Row>)

  datatype Append = Append(message: Json, context: map<string, Json>, summary: Option<string>)
  datatype Event = Appended(append: Append) | Expired

  datatype Source = FromStore | FromDatabase
  datatype View = View(source: Source, entry: Entry)

  function LastOf<T>(s: seq<T>, n: nat): seq<T> {
    if |s| <= n then s else s[|s| - n..]
  }

  function Step(s: State, e: Event): State {
    match e
    case Expired => s.(cached := None)
    case Appended(a) =>
      var before := if s.cached.Some? then s.cached.value else Entry([], map[], None, 0);
      var messages := before.messages + [Sanitize(a.message)];
      State(Some(Entry(LastOf(messages, WINDOW), SanitizeFields(Merge(before.context, a.context)),
                       if a.summary.Some? then a.summary else before.summary, |messages|)),
            Some(Row(if s.row.None? || a.summary.Some? then a.summary else s.row.value.summary, |messages|)))
  }

  /** `merge_session_context` */
  method MergeSessionContext(existing: map<string, Json>, incoming: map<string, Json>)
    returns (merged: map<string, Json>)
    ensures merged == Merge(existing, incoming)
  {
    merged := existing;
    var keys := incoming.Keys;
    while keys != {}
      invariant keys <= incoming.Keys
      invariant forall k :: k in merged <==> k in existing || (k in incoming && k !in keys && incoming[k] != Null)
      invariant forall k :: k in merged ==>
                  merged[k] == if k in incoming && k !in keys && incoming[k] != Null then incoming[k] else existing[k]
    {
      var key :| key in keys;
      if incoming[key] != Null {
        merged := merged[key := incoming[key]];
      }
      keys := keys - {key};
    }
  }

  class Session {
    var cached: Option<Entry>
    var row: Option<Row>

    ghost function Abstract(): State
      reads this
    {
      State(cached, row)
    }

    constructor ()
      ensures Abstract() == State(None, None)
    {
      cached, row := None, None;
    }

    method AppendMemory(a: Append) returns (data: Entry)
      modifies this
      ensures Abstract() == Step(old(Abstract()), Appended(a))
      ensures cached == Some(data)
    {
      var messages := if cached.Some? then cached.value.messages else [];
      messages := messages + [Sanitize(a.message)];
      var previous := if cached.Some? then cached.value.context else map[];
      var merged := MergeSessionContext(previous, a.context);
      var preserved := if a.summary.Some? then a.summary else if cached.Some? then cached.value.summary else None;
      data := Entry(LastOf(messages, WINDOW), SanitizeFields(merged), preserved, |messages|);
      cached := Some(data);
      if row.None? {
        row := Some(Row(a.summary, |messages|));
      } else {
        if a.summary.Some? {
          row := Some(row.value.(summary := a.summary));
        }
        row := Some(row.value.(messageCount := |messages|));
      }
    }

    method GetMemory() returns (view: Option<View>)
      ensures cached.Some? ==> view == Some(View(FromStore, cached.value))
      ensures cached.None? && row.Some? ==>
                view == Some(View(FromDatabase, Entry([], map[], row.value.summary, row.value.messageCount)))
      ensures cached.None? && row.None? ==> view == None
    {
      if cached.Some? {
        return Some(View(FromStore, cached.value));
      }
      if row.None? {
        return None;
      }
      view := Some(View(FromDatabase, Entry([], map[], row.value.summary, row.value.messageCount)));
    }
  }

  // ----- whole runs

  function After(run: seq<Event>): State {
    if run == [] then State(None, None) else Step(After(Front(run)), Last(run))
  }

  /** The appends of a run, and those since its last expiry. */
  function Appends(run: seq<Event>): seq<Append> {
    if run == [] then []
    else Appends(Front(run)) + if Last(run).Appended? then [Last(run).append] else []
  }

  function SinceExpiry(run: seq<Event>): seq<Append> {
    if run == [] || Last(run).Expired? then [] else SinceExpiry(Front(run)) + [Last(run).append]
  }

  function RawContext(log: seq<Append>): map<string, Json> {
    if log == [] then map[] else Merge(RawContext(Front(log)), Last(log).context)
  }

  function SanitizedMessages(log: seq<Append>): seq<Json> {
    seq(|log|, i requires 0 <= i < |log| => Sanitize(log[i].message))
  }

  function LatestSummary(log: seq<Append>): Option<string> {
    if log == [] then None
    else if Last(log).summary.Some? then Last(log).summary
    else LatestSummary(Front(log))
  }

  function Min(a: nat, b: nat): nat {
    if a <= b then a else b
  }

  /** Since the last expiry: the stored context is the sanitised merge of all the raw contexts, the
      stored messages are the last twenty of the sanitised log, and the count saturates at 21. */
  lemma {:induction false} StoredSessionIsSanitisedLog(run: seq<Event>)
    ensures var log := SinceExpiry(run);
            && (After(run).cached.None? <==> log == [])
            && (log != [] ==>
                 After(run).cached == Some(Entry(LastOf(SanitizedMessages(log), WINDOW),
                                                 SanitizeFields(RawContext(log)),
                                                 LatestSummary(log), Min(|log|, WINDOW + 1))))
  {
    if run != [] && Last(run).Appended? {
      StoredSessionIsSanitisedLog(Front(run));
      var before, log := SinceExpiry(Front(run)), SinceExpiry(run);
      var a := Last(run).append;
      assert log == before + [a] && Front(log) == before;
      assert SanitizedMessages(log) == SanitizedMessages(before) + [Sanitize(a.message)];
      SanitizeCommutesWithMerge(RawContext(before), a.context);
      assert before == [] ==> RawContext(before) == SanitizeFields(RawContext(before)) == map[];
      WindowAppend(SanitizedMessages(before), Sanitize(a.message), WINDOW);
    }
  }

  lemma WindowAppend<T>(s: seq<T>, x: T, n: nat)
    requires n > 0
    ensures LastOf(LastOf(s, n) + [x], n) == LastOf(s + [x], n)
    ensures |LastOf(s, n)| == Min(|s|, n)
  {
  }

  lemma StepRow(s: State, e: Event)
    ensures e.Expired? ==> Step(s, e) == State(None, s.row)
    ensures e.Appended? ==>
              var after := Step(s, e);
              && after.row.Some? && after.cached.Some?
              && after.row.value.messageCount == after.cached.value.messageCount
              && after.row.value.summary
                 == if e.append.summary.Some? then e.append.summary
                    else if s.row.Some? then s.row.value.summary else None
  {
  }

  /** The database row remembers the latest summary ever given; its count is the store's. */
  lemma {:induction false} RowRemembersSummary(run: seq<Event>)
    ensures After(run).row.None? <==> Appends(run) == []
    ensures After(run).row.Some? ==> After(run).row.value.summary == LatestSummary(Appends(run))
    ensures After(run).cached.Some? ==>
              After(run).row.Some? && After(run).row.value.messageCount == After(run).cached.value.messageCount
  {
    if run != [] {
      RowRemembersSummary(Front(run));
      StepRow(After(Front(run)), Last(run));
      var before := Appends(Front(run));
      if Last(run).Appended? {
        assert Appends(run) == before + [Last(run).append] && Front(Appends(run)) == before;
      } else {
        assert Appends(run) == before;
      }
    }
  }

  lemma {:induction false} SummarySinceExpiry(run: seq<Event>)
    ensures LatestSummary(SinceExpiry(run)).Some? ==> LatestSummary(SinceExpiry(run)) == LatestSummary(Appends(run))
  {
    if run != [] && Last(run).Appended? {
      SummarySinceExpiry(Front(run));
      assert Front(SinceExpiry(run)) == SinceExpiry(Front(run));
      assert Front(Appends(run)) == Appends(Front(run));
    }
  }

  /** The store and the database agree on the summary if and only if one was given since the last
      expiry, or none was ever given: an append after an expiry does not read the row back. */
  lemma SummariesAgreeIff(run: seq<Event>)
    requires After(run).cached.Some?
    ensures After(run).row.Some?
    ensures After(run).cached.value.summary == After(run).row.value.summary
       <==> LatestSummary(SinceExpiry(run)).Some? || LatestSummary(Appends(run)).None?
  {
    StoredSessionIsSanitisedLog(run);
    RowRemembersSummary(run);
    SummarySinceExpiry(run);
  }

  lemma SummaryLostExample(given: Append, silent: Append)
    requires given.summary.Some? && silent.summary.None?
    ensures var end := After([Appended(given), Expired, Appended(silent)]);
            && end.cached.Some? && end.row.Some?
            && end.cached.value.summary == None && end.row.value.summary == given.summary
  {
    var run := [Appended(given), Expired, Appended(silent)];
    assert Front(run) == [Appended(given), Expired];
    assert Front(Front(run)) == [Appended(given)];
    assert Front(Front(Front(run))) == [];
    assert After([Appended(given)]).row.value.summary == given.summary;
  }
}
