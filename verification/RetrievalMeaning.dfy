/** What a retrieval returns, in terms of the rows of the store: which rows qualify, with which score
    and fields, and which of them are kept. */
module RetrievalMeaning {
  import opened Common
  import opened StableRanking
  import opened RagRetrieval

  // ----- one row

  ghost predicate Has(entity: map<string, string>, field: string, value: string) {
    field in entity && entity[field] == value
  }

  /** The field's text, or the default where the field is missing. */
  ghost predicate Reads(entity: map<string, string>, field: string, default: string, value: string) {
    Has(entity, field, value) || (field !in entity && value == default)
  }

  ghost predicate ReadsOptional(entity: map<string, string>, field: string, value: Option<string>) {
    (value.Some? && Has(entity, field, value.value)) || (field !in entity && value.None?)
  }

  /** Distance zero, or less, scores one; distance one, or more or none at all, scores zero; in between
      the score falls as the distance grows. */
  ghost predicate Scores(distance: Option<real>, score: real) {
    || (distance.None? && score == 0.0)
    || (distance.Some? && distance.value <= 0.0 && score == 1.0)
    || (distance.Some? && distance.value >= 1.0 && score == 0.0)
    || (distance.Some? && 0.0 < distance.value < 1.0 && score + distance.value == 1.0)
  }

  ghost predicate Describes(h: Hit, raw: RawHit, source: Source) {
    && Scores(raw.distance, h.score)
    && h.item.collection == source.collection
    && Reads(raw.entity, source.idField, raw.id, h.item.recordId)
    && Reads(raw.entity, source.contentField, "", h.item.content)
    && Reads(raw.entity, "tenant_id", "", h.item.tenantId)
    && Reads(raw.entity, "title", "", h.item.title)
    && ReadsOptional(raw.entity, "tags", h.item.tags)
    && ReadsOptional(raw.entity, "source_doc", h.item.sourceDoc)
  }

  lemma HitDescribes(raw: RawHit, source: Source)
    ensures Describes(HitOf(raw, source), raw, source)
  {
  }

  /** A row qualifies when its score reaches the threshold. */
  ghost predicate Qualifies(raw: RawHit, threshold: real) {
    exists score :: Scores(raw.distance, score) && score >= threshold
  }

  lemma QualifiesByScore(raw: RawHit, source: Source, threshold: real)
    ensures Qualifies(raw, threshold) <==> HitOf(raw, source).score >= threshold
  {
    HitDescribes(raw, source);
  }

  // ----- one collection

  /** The qualifying rows, in order, each with its hit. */
  ghost predicate PicksRows(raw: seq<RawHit>, source: Source, threshold: real, picks: seq<nat>, hits: seq<Hit>) {
    && Ascending(picks, |raw|)
    && (forall i :: 0 <= i < |raw| ==> (i in picks <==> Qualifies(raw[i], threshold)))
    && |hits| == |picks| && forall k :: 0 <= k < |hits| ==> Describes(hits[k], raw[picks[k]], source)
  }

  lemma PickStep(raw: seq<RawHit>, source: Source, threshold: real, picks: seq<nat>, hits: seq<Hit>)
    requires raw != [] && PicksRows(Front(raw), source, threshold, picks, hits)
    ensures Qualifies(Last(raw), threshold) ==>
              PicksRows(raw, source, threshold, picks + [|raw| - 1], hits + [HitOf(Last(raw), source)])
    ensures !Qualifies(Last(raw), threshold) ==> PicksRows(raw, source, threshold, picks, hits)
  {
    var n := |raw| - 1;
    AppendPick(picks, n);
    HitDescribes(Last(raw), source);
    forall i | 0 <= i < n ensures i in picks <==> Qualifies(raw[i], threshold) {
      assert Front(raw)[i] == raw[i];
    }
    var picked, longer := picks + [n], hits + [HitOf(Last(raw), source)];
    forall k | 0 <= k < |longer| ensures Describes(longer[k], raw[picked[k]], source) {
      if k < |hits| {
        assert Front(raw)[picks[k]] == raw[picks[k]];
      }
    }
  }

  lemma {:induction false} ParsedMeaning(raw: seq<RawHit>, source: Source, threshold: real) returns (picks: seq<nat>)
    ensures PicksRows(raw, source, threshold, picks, Parsed(raw, source, threshold))
  {
    picks := [];
    if raw != [] {
      picks := ParsedMeaning(Front(raw), source, threshold);
      PickStep(raw, source, threshold, picks, Parsed(Front(raw), source, threshold));
      QualifiesByScore(Last(raw), source, threshold);
      if Qualifies(Last(raw), threshold) {
        picks := picks + [|raw| - 1];
      }
    }
  }

  // ----- all named collections

  /** Row `row` of the collection named at position `name`. */
  datatype Place = Place(name: nat, row: nat)

  ghost predicate Before(p: Place, q: Place) {
    p.name < q.name || (p.name == q.name && p.row < q.row)
  }

  /** The field layout of a collection; only the two configured ones have one. */
  ghost predicate LayoutOf(settings: Settings, name: string, source: Source) {
    source.collection == name
    && ((source == settings.cases) || (source == settings.knowledge && name != settings.cases.collection))
  }

  ghost predicate QualifyingPlace(store: Store, settings: Settings, names: seq<string>, threshold: real, p: Place) {
    && p.name < |names| && names[p.name] in store && p.row < |store[names[p.name]]|
    && (exists source :: LayoutOf(settings, names[p.name], source))
    && Qualifies(store[names[p.name]][p.row], threshold)
  }

  ghost predicate DescribesPlace(store: Store, settings: Settings, names: seq<string>, p: Place, h: Hit) {
    && p.name < |names| && names[p.name] in store && p.row < |store[names[p.name]]|
    && exists source :: LayoutOf(settings, names[p.name], source) && Describes(h, store[names[p.name]][p.row], source)
  }

  /** Every qualifying place once, by collection and then by rank, each with its hit. */
  ghost predicate PicksPlaces(store: Store, settings: Settings, names: seq<string>, threshold: real,
                              places: seq<Place>, hits: seq<Hit>) {
    && (forall k, l :: 0 <= k < l < |places| ==> Before(places[k], places[l]))
    && (forall p: Place :: p in places <==> QualifyingPlace(store, settings, names, threshold, p))
    && |hits| == |places|
    && forall k :: 0 <= k < |hits| ==> DescribesPlace(store, settings, names, places[k], hits[k])
  }

  function PlacesIn(name: nat, picks: seq<nat>): (places: seq<Place>)
    ensures |places| == |picks| && forall k :: 0 <= k < |picks| ==> places[k] == Place(name, picks[k])
  {
    seq(|picks|, k requires 0 <= k < |picks| => Place(name, picks[k]))
  }

  /** The qualifying places of the last collection, each with its hit. */
  ghost predicate PicksLast(store: Store, settings: Settings, names: seq<string>, threshold: real,
                            places: seq<Place>, hits: seq<Hit>) {
    && (forall k, l :: 0 <= k < l < |places| ==> Before(places[k], places[l]))
    && (forall p: Place :: p in places <==>
                             p.name == |names| - 1 && QualifyingPlace(store, settings, names, threshold, p))
    && |hits| == |places|
    && forall k :: 0 <= k < |hits| ==> DescribesPlace(store, settings, names, places[k], hits[k])
  }

  lemma PlaceInPicks(n: nat, picks: seq<nat>, p: Place)
    ensures p in PlacesIn(n, picks) <==> p.name == n && p.row in picks
  {
    if p.name == n && p.row in picks {
      var k :| 0 <= k < |picks| && picks[k] == p.row;
      assert PlacesIn(n, picks)[k] == p;
    }
  }

  lemma LastPlaces(store: Store, settings: Settings, names: seq<string>, threshold: real, source: Source,
                   picks: seq<nat>, hits: seq<Hit>)
    requires names != [] && Last(names) in store && LayoutOf(settings, Last(names), source)
    requires PicksRows(store[Last(names)], source, threshold, picks, hits)
    ensures PicksLast(store, settings, names, threshold, PlacesIn(|names| - 1, picks), hits)
  {
    var n := |names| - 1;
    var places := PlacesIn(n, picks);
    forall p: Place
      ensures p in places <==> p.name == n && QualifyingPlace(store, settings, names, threshold, p)
    {
      PlaceInPicks(n, picks, p);
    }
    forall k | 0 <= k < |hits| ensures DescribesPlace(store, settings, names, places[k], hits[k]) {
      assert Describes(hits[k], store[names[n]][picks[k]], source);
    }
  }

  lemma CollectionMeaning(store: Store, settings: Settings, names: seq<string>, threshold: real)
    returns (places: seq<Place>)
    requires names != []
    ensures PicksLast(store, settings, names, threshold, places,
                      CollectionHits(store, settings, Last(names), None, threshold))
  {
    places := [];
    var name := Last(names);
    if name in store && (name == settings.cases.collection || name == settings.knowledge.collection) {
      var source := if name == settings.cases.collection then settings.cases else settings.knowledge;
      var picks := ParsedMeaning(store[name], source, threshold);
      places := PlacesIn(|names| - 1, picks);
      LastPlaces(store, settings, names, threshold, source, picks, Parsed(store[name], source, threshold));
    }
  }

  lemma FrontPlaces(store: Store, settings: Settings, names: seq<string>, threshold: real, places: seq<Place>,
                    hits: seq<Hit>)
    requires names != [] && PicksPlaces(store, settings, Front(names), threshold, places, hits)
    ensures forall p: Place :: p in places <==>
                          p.name < |names| - 1 && QualifyingPlace(store, settings, names, threshold, p)
    ensures forall k :: 0 <= k < |hits| ==> DescribesPlace(store, settings, names, places[k], hits[k])
  {
    forall p: Place ensures p in places <==>
                       p.name < |names| - 1 && QualifyingPlace(store, settings, names, threshold, p)
    {
      assert p.name < |names| - 1 ==> Front(names)[p.name] == names[p.name];
    }
    forall k | 0 <= k < |hits| ensures DescribesPlace(store, settings, names, places[k], hits[k]) {
      assert DescribesPlace(store, settings, Front(names), places[k], hits[k]);
    }
  }

  lemma JoinOrder(before: seq<Place>, here: seq<Place>, n: nat)
    requires forall k, l :: 0 <= k < l < |before| ==> Before(before[k], before[l])
    requires forall k, l :: 0 <= k < l < |here| ==> Before(here[k], here[l])
    requires (forall p: Place :: p in before ==> p.name < n) && forall p: Place :: p in here ==> p.name == n
    ensures forall k, l :: 0 <= k < l < |before + here| ==> Before((before + here)[k], (before + here)[l])
  {
    var places := before + here;
    forall k, l | 0 <= k < l < |places| ensures Before(places[k], places[l]) {
      if k < |before| <= l {
        assert places[k] in before && places[l] in here;
      }
    }
  }

  lemma JoinHits(store: Store, settings: Settings, names: seq<string>, before: seq<Place>, beforeHits: seq<Hit>,
                 here: seq<Place>, hereHits: seq<Hit>)
    requires |before| == |beforeHits| && |here| == |hereHits|
    requires forall k :: 0 <= k < |before| ==> DescribesPlace(store, settings, names, before[k], beforeHits[k])
    requires forall k :: 0 <= k < |here| ==> DescribesPlace(store, settings, names, here[k], hereHits[k])
    ensures forall k :: 0 <= k < |before + here| ==>
                          DescribesPlace(store, settings, names, (before + here)[k], (beforeHits + hereHits)[k])
  {
  }

  lemma JoinPlaces(store: Store, settings: Settings, names: seq<string>, threshold: real, before: seq<Place>,
                   beforeHits: seq<Hit>, here: seq<Place>, hereHits: seq<Hit>)
    requires names != [] && PicksPlaces(store, settings, Front(names), threshold, before, beforeHits)
    requires PicksLast(store, settings, names, threshold, here, hereHits)
    ensures PicksPlaces(store, settings, names, threshold, before + here, beforeHits + hereHits)
  {
    FrontPlaces(store, settings, names, threshold, before, beforeHits);
    JoinOrder(before, here, |names| - 1);
    JoinHits(store, settings, names, before, beforeHits, here, hereHits);
    forall p: Place
      ensures p in before + here <==> QualifyingPlace(store, settings, names, threshold, p)
    {
      assert p in before + here <==> p in before || p in here;
    }
  }

  /** Without a cut, the gathered hits are those of exactly the qualifying places. */
  lemma {:induction false} GatheredMeaning(store: Store, settings: Settings, names: seq<string>, threshold: real)
    returns (places: seq<Place>)
    ensures PicksPlaces(store, settings, names, threshold, places, Gathered(store, settings, names, None, threshold))
  {
    places := [];
    if names != [] {
      var before := GatheredMeaning(store, settings, Front(names), threshold);
      var here := CollectionMeaning(store, settings, names, threshold);
      places := before + here;
      JoinPlaces(store, settings, names, threshold, before, Gathered(store, settings, Front(names), None, threshold),
                 here, CollectionHits(store, settings, Last(names), None, threshold));
    }
  }

  /** The whole answer: the qualifying rows of the named collections, or of both configured ones when
      none is named, ranked by score with ties in place order, and the first `topK` of them, or as many
      as the settings say when `topK` is zero. */
  lemma RetrievalMeaningOf(store: Store, settings: Settings, topK: nat, scoreThreshold: Option<real>,
                           collections: seq<string>, result: seq<Hit>, k: nat, threshold: real, names: seq<string>)
    returns (places: seq<Place>, hits: seq<Hit>)
    requires result == GlobalTopK(store, settings, TargetCollections(collections, settings),
                                  EffectiveTopK(topK, settings),
                                  if scoreThreshold.Some? then scoreThreshold.value else settings.scoreThreshold)
    requires (topK > 0 && k == topK) || (topK == 0 && k == settings.topK)
    requires scoreThreshold == Some(threshold) || (scoreThreshold == None && threshold == settings.scoreThreshold)
    requires (collections != [] && names == collections)
             || (collections == [] && names == [settings.cases.collection, settings.knowledge.collection])
    ensures PicksPlaces(store, settings, names, threshold, places, hits)
    ensures result == Take(StableSort(hits), k)
  {
    places := GatheredMeaning(store, settings, names, threshold);
    hits := Gathered(store, settings, names, None, threshold);
  }
}
