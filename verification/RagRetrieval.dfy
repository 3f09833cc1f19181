/** Retrieval over several vector collections: truncated per-collection searches, threshold filter,
    stable sort and truncation, proved equal to the global top-k of everything that qualifies. */
module RagRetrieval {
  import opened Common
  import opened StableRanking

  datatype RawHit = RawHit(id: string, entity: map<string, string>, distance: Option<real>)
  datatype Record = Record(collection: string, recordId: string, tenantId: string, title: string, content: string,
                           tags: Option<string>, sourceDoc: Option<string>)
  type Hit = Scored<Record>

  /** Which entity fields of a collection hold the record id and the text. */
  datatype Source = Source(collection: string, idField: string, contentField: string)

  datatype Settings = Settings(topK: nat, scoreThreshold: real, cases: Source, knowledge: Source)

  /** For the fixed query and tenant: every matching row of each collection, nearest first. The
      vector database answers a search with a prefix of this ranking. */
  type Store = map<string, seq<RawHit>>

  function DistanceOf(h: RawHit): real {
    match h.distance case Some(d) => d case None => 1.0
  }

  ghost predicate NearestFirst(raw: seq<RawHit>) {
    forall i, j :: 0 <= i <= j < |raw| ==> DistanceOf(raw[i]) <= DistanceOf(raw[j])
  }

  ghost predicate RankedStore(store: Store) {
    forall c :: c in store ==> NearestFirst(store[c])
  }

  function DistanceToScore(distance: real): real {
    var s := if 1.0 - distance < 1.0 then 1.0 - distance else 1.0;
    if s > 0.0 then s else 0.0
  }

  function TextOr(entity: map<string, string>, field: string, default: string): string {
    if field in entity then entity[field] else default
  }

  function TextIn(entity: map<string, string>, field: string): Option<string> {
    if field in entity then Some(entity[field]) else None
  }

  function HitOf(raw: RawHit, source: Source): Hit {
    var e := raw.entity;
    Scored(Record(source.collection, TextOr(e, source.idField, raw.id), TextOr(e, "tenant_id", ""),
                  TextOr(e, "title", ""), TextOr(e, source.contentField, ""),
                  TextIn(e, "tags"), TextIn(e, "source_doc")),
           DistanceToScore(DistanceOf(raw)))
  }

  /** `_parse_search_hits`. */
  function Parsed(raw: seq<RawHit>, source: Source, threshold: real): seq<Hit> {
    if raw == [] then []
    else
      var hit := HitOf(Last(raw), source);
      Parsed(Front(raw), source, threshold) + if hit.score < threshold then [] else [hit]
  }

  /** The qualifying hits of one collection when the search is cut at `limit`, if it is cut. */
  function CollectionHits(store: Store, settings: Settings, name: string, limit: Option<nat>,
                          threshold: real): seq<Hit> {
    if name !in store then []
    else
      var raw := if limit.Some? then Take(store[name], limit.value) else store[name];
      if name == settings.cases.collection then Parsed(raw, settings.cases, threshold)
      else if name == settings.knowledge.collection then Parsed(raw, settings.knowledge, threshold)
      else []
  }

  function Gathered(store: Store, settings: Settings, names: seq<string>, limit: Option<nat>,
                    threshold: real): seq<Hit> {
    if names == [] then []
    else Gathered(store, settings, Front(names), limit, threshold)
         + CollectionHits(store, settings, Last(names), limit, threshold)
  }

  // ----- one collection: what the cut drops is dominated by what it keeps

  lemma {:induction false} ParsedConcat(a: seq<RawHit>, b: seq<RawHit>, source: Source, threshold: real)
    ensures Parsed(a + b, source, threshold) == Parsed(a, source, threshold) + Parsed(b, source, threshold)
  {
    if b == [] {
      assert a + b == a;
    } else {
      assert Front(a + b) == a + Front(b) && Last(a + b) == Last(b);
      ParsedConcat(a, Front(b), source, threshold);
    }
  }

  lemma {:induction false} ParsedOrigin(raw: seq<RawHit>, source: Source, threshold: real, e: Hit) returns (j: nat)
    requires e in Parsed(raw, source, threshold)
    ensures j < |raw| && e == HitOf(raw[j], source) && e.score >= threshold
  {
    if e == HitOf(Last(raw), source) && e.score >= threshold {
      j := |raw| - 1;
    } else {
      j := ParsedOrigin(Front(raw), source, threshold, e);
    }
  }

  lemma {:induction false} NearHitsCount(raw: seq<RawHit>, source: Source, threshold: real, score: real)
    requires score >= threshold
    requires forall i :: 0 <= i < |raw| ==> HitOf(raw[i], source).score >= score
    ensures CountAtLeast(Parsed(raw, source, threshold), score) == |raw|
  {
    if raw != [] {
      NearHitsCount(Front(raw), source, threshold, score);
      CountConcat(Parsed(Front(raw), source, threshold), [HitOf(Last(raw), source)], score);
      assert [HitOf(Last(raw), source)][1..] == [];
    }
  }

  lemma CutIsDominated(raw: seq<RawHit>, source: Source, threshold: real, k: nat, e: Hit)
    requires NearestFirst(raw) && k < |raw| && e in Parsed(raw[k..], source, threshold)
    ensures CountAtLeast(Parsed(raw[..k], source, threshold), e.score) >= k
  {
    var j := ParsedOrigin(raw[k..], source, threshold, e);
    assert raw[k..][j] == raw[k + j];
    NearHitsCount(raw[..k], source, threshold, e.score);
  }

  /** One collection: its full hits are its cut hits followed by dominated ones. */
  lemma CollectionCut(store: Store, settings: Settings, name: string, k: nat, threshold: real) returns (rest: seq<Hit>)
    requires RankedStore(store)
    ensures CollectionHits(store, settings, name, None, threshold)
         == CollectionHits(store, settings, name, Some(k), threshold) + rest
    ensures forall e :: e in rest ==>
              CountAtLeast(CollectionHits(store, settings, name, Some(k), threshold), e.score) >= k
  {
    rest := [];
    if name in store && k < |store[name]|
       && (name == settings.cases.collection || name == settings.knowledge.collection) {
      var raw := store[name];
      var source := if name == settings.cases.collection then settings.cases else settings.knowledge;
      rest := Parsed(raw[k..], source, threshold);
      ParsedConcat(raw[..k], raw[k..], source, threshold);
      assert raw[..k] + raw[k..] == raw;
      forall e | e in rest ensures CountAtLeast(Parsed(raw[..k], source, threshold), e.score) >= k {
        CutIsDominated(raw, source, threshold, k, e);
      }
    }
  }

  /** Cutting every search at `k` does not change the first `k` of the merged, sorted list. */
  lemma {:induction false} MergeCuts(store: Store, settings: Settings, names: seq<string>, after: seq<Hit>,
                                     k: nat, threshold: real)
    requires RankedStore(store)
    ensures Take(StableSort(Gathered(store, settings, names, Some(k), threshold) + after), k)
         == Take(StableSort(Gathered(store, settings, names, None, threshold) + after), k)
    decreases names
  {
    if names != [] {
      var cut := CollectionHits(store, settings, Last(names), Some(k), threshold);
      var rest := CollectionCut(store, settings, Last(names), k, threshold);
      var cutBefore := Gathered(store, settings, Front(names), Some(k), threshold);
      var allBefore := Gathered(store, settings, Front(names), None, threshold);
      assert Gathered(store, settings, names, Some(k), threshold) + after == cutBefore + (cut + after);
      assert Gathered(store, settings, names, None, threshold) == allBefore + (cut + rest);
      MergeCuts(store, settings, Front(names), cut + after, k, threshold);
      MergeOne(allBefore, cut, rest, after, k);
    }
  }

  lemma MergeOne(before: seq<Hit>, cut: seq<Hit>, rest: seq<Hit>, after: seq<Hit>, k: nat)
    requires forall e :: e in rest ==> CountAtLeast(cut, e.score) >= k
    ensures Take(StableSort(before + (cut + after)), k) == Take(StableSort(before + (cut + rest) + after), k)
  {
    forall e | e in rest ensures CountAtLeast(before + cut, e.score) >= k {
      CountConcat(before, cut, e.score);
    }
    DropDominated(before + cut, rest, after, k);
    assert before + cut + rest + after == before + (cut + rest) + after;
    assert before + cut + after == before + (cut + after);
  }

  function EffectiveTopK(topK: nat, settings: Settings): nat {
    if topK == 0 then settings.topK else topK
  }

  function TargetCollections(names: seq<string>, settings: Settings): seq<string> {
    if names == [] then [settings.cases.collection, settings.knowledge.collection] else names
  }

  /** The reference answer: sort everything that qualifies in every collection, keep the first k. */
  function GlobalTopK(store: Store, settings: Settings, names: seq<string>, k: nat, threshold: real): seq<Hit> {
    Take(StableSort(Gathered(store, settings, names, None, threshold)), k)
  }

  /** `retrieve_rag_hits`, with `embedded` telling whether the query produced a vector. */
  method RetrieveRagHits(store: Store, settings: Settings, topK: nat, scoreThreshold: Option<real>,
                         collections: seq<string>, embedded: bool) returns (result: seq<Hit>)
    requires RankedStore(store)
    ensures !embedded ==> result == []
    ensures embedded ==>
              result == GlobalTopK(store, settings, TargetCollections(collections, settings),
                                   EffectiveTopK(topK, settings),
                                   if scoreThreshold.Some? then scoreThreshold.value else settings.scoreThreshold)
  {
    var k := EffectiveTopK(topK, settings);
    var threshold := if scoreThreshold.Some? then scoreThreshold.value else settings.scoreThreshold;
    var targets := TargetCollections(collections, settings);
    if !embedded {
      return [];
    }
    var hits := GatherHits(store, settings, targets, k, threshold);
    MergeCuts(store, settings, targets, [], k, threshold);
    assert hits + [] == hits;
    var all := Gathered(store, settings, targets, None, threshold);
    assert all + [] == all;
    hits := StableSort(hits);
    return Take(hits, k);
  }

  method GatherHits(store: Store, settings: Settings, targets: seq<string>, k: nat, threshold: real)
    returns (hits: seq<Hit>)
    ensures hits == Gathered(store, settings, targets, Some(k), threshold)
  {
    hits := [];
    for i := 0 to |targets|
      invariant hits == Gathered(store, settings, targets[..i], Some(k), threshold)
    {
      var found := VectorSearch(store, settings, targets[i], k, threshold);
      assert Front(targets[..i + 1]) == targets[..i];
      hits := hits + found;
    }
    assert targets[..|targets|] == targets;
  }

  /** `vector_search_collection`: search, then keep what reaches the threshold. */
  method VectorSearch(store: Store, settings: Settings, name: string, k: nat, threshold: real)
    returns (parsed: seq<Hit>)
    ensures parsed == CollectionHits(store, settings, name, Some(k), threshold)
  {
    parsed := [];
    if name !in store || (name != settings.cases.collection && name != settings.knowledge.collection) {
      return;
    }
    var source := if name == settings.cases.collection then settings.cases else settings.knowledge;
    var raw := Take(store[name], k);
    for i := 0 to |raw|
      invariant parsed == Parsed(raw[..i], source, threshold)
    {
      assert Front(raw[..i + 1]) == raw[..i];
      var hit := HitOf(raw[i], source);
      if hit.score >= threshold {
        parsed := parsed + [hit];
      }
    }
    assert raw[..|raw|] == raw;
  }

  /** The answer is optimal: no qualifying hit left out scores more than one returned. */
  lemma GlobalTopKIsBest(store: Store, settings: Settings, names: seq<string>, k: nat, threshold: real)
    ensures var all := Gathered(store, settings, names, None, threshold);
            var top := GlobalTopK(store, settings, names, k, threshold);
            && Descending(top) && |top| == (if |all| <= k then |all| else k)
            && multiset(top) <= multiset(all)
            && forall h: Hit, t: Hit :: h in multiset(all) - multiset(top) && t in top ==> h.score <= t.score
  {
    var all := Gathered(store, settings, names, None, threshold);
    StableSortCorrect(all);
    assert |multiset(StableSort(all))| == |multiset(all)|;
    PrefixIsBest(StableSort(all), k);
  }
}
