/** The read-through profile cache: what a cached read may return, with a clock, recalculations
    that invalidate before they commit, and a key-value store that may be unreachable. */
module ProfileCache {
  import opened Common

  datatype Key = Key(profileType: string, entityId: string)

  /** A profile as the loader returns it. */
  type Profile = string

  /** What a stored text decodes to; `Unusable` is a text that is neither the marker nor a profile. */
  datatype Raw = EmptyMarker | Stored(profile: Profile) | Unusable

  datatype Entry = Entry(raw: Raw, expires: nat)

  datatype State = State(now: nat, profiles: map<Key, Profile>, cache: map<Key, Entry>)

  const PROFILE_TTL := 600
  const EMPTY_TTL := 60

  function TtlOf(value: Option<Profile>): nat {
    if value.None? then EMPTY_TTL else PROFILE_TTL
  }

  function RawOf(value: Option<Profile>): Raw {
    if value.None? then EmptyMarker else Stored(value.value)
  }

  function Load(s: State, key: Key): Option<Profile> {
    if key in s.profiles then Some(s.profiles[key]) else None
  }

  predicate Live(s: State, key: Key) {
    key in s.cache && s.now < s.cache[key].expires
  }

  /** An entry a read answers from. */
  predicate Hit(s: State, key: Key) {
    Live(s, key) && s.cache[key].raw != Unusable
  }

  function ReadValue(s: State, key: Key, reachable: bool): Option<Profile> {
    if reachable && Hit(s, key) then
      match s.cache[key].raw
      case Stored(p) => Some(p)
      case _ => None
    else Load(s, key)
  }

  datatype Event =
    | Tick(delta: nat)
    | Read(key: Key, reachable: bool)
    | Invalidate(key: Key, reachable: bool)
    | Commit(writes: map<Key, Profile>)
    | ForeignText(key: Key, ttl: nat)

  function Step(s: State, e: Event): State {
    match e
    case Tick(delta) => s.(now := s.now + delta)
    case Read(key, reachable) =>
      if reachable && !Hit(s, key)
      then s.(cache := s.cache[key := Entry(RawOf(Load(s, key)), s.now + TtlOf(Load(s, key)))])
      else s
    case Invalidate(key, reachable) => if reachable then s.(cache := s.cache - {key}) else s
    case Commit(writes) => s.(profiles := s.profiles + writes)
    case ForeignText(key, ttl) => s.(cache := s.cache[key := Entry(Unusable, s.now + ttl)])
  }

  /** `recalculate_*_profiles`: every key is invalidated in turn, then one commit. */
  function Recalculation(updates: seq<(Key, Profile)>, reachable: bool): seq<Event> {
    Invalidations(updates, reachable) + [Commit(Writes(updates))]
  }

  function Invalidations(updates: seq<(Key, Profile)>, reachable: bool): seq<Event> {
    if updates == [] then [] else Invalidations(Front(updates), reachable) + [Invalidate(Last(updates).0, reachable)]
  }

  function Writes(updates: seq<(Key, Profile)>): map<Key, Profile> {
    if updates == [] then map[] else Writes(Front(updates))[Last(updates).0 := Last(updates).1]
  }

  function From(s: State, run: seq<Event>): State {
    if run == [] then s else Step(From(s, Front(run)), Last(run))
  }

  function After(profiles: map<Key, Profile>, run: seq<Event>): State {
    From(State(0, profiles, map[]), run)
  }

  lemma NextInvalidation(s: State, updates: seq<(Key, Profile)>, i: nat, reachable: bool)
    requires i < |updates|
    ensures From(s, Invalidations(updates[..i + 1], reachable))
         == Step(From(s, Invalidations(updates[..i], reachable)), Invalidate(updates[i].0, reachable))
    ensures Writes(updates[..i + 1]) == Writes(updates[..i])[updates[i].0 := updates[i].1]
  {
    assert Front(updates[..i + 1]) == updates[..i];
    assert Front(Invalidations(updates[..i + 1], reachable)) == Invalidations(updates[..i], reachable);
  }

  /** The profile table, the key-value store and the clock. */
  class ProfileService {
    var now: nat
    var profiles: map<Key, Profile>
    var cache: map<Key, Entry>

    ghost function Abstract(): State
      reads this
    {
      State(now, profiles, cache)
    }

    constructor (profiles: map<Key, Profile>)
      ensures Abstract() == State(0, profiles, map[])
    {
      now, this.profiles, cache := 0, profiles, map[];
    }

    /** `read_profile_cache` */
    method ReadProfile(key: Key, reachable: bool) returns (value: Option<Profile>)
      modifies this`cache
      ensures value == ReadValue(old(Abstract()), key, reachable)
      ensures Abstract() == Step(old(Abstract()), Read(key, reachable))
    {
      if reachable && key in cache && now < cache[key].expires {
        if cache[key].raw == EmptyMarker {
          return None;
        }
        if cache[key].raw.Stored? {
          return Some(cache[key].raw.profile);
        }
      }
      value := if key in profiles then Some(profiles[key]) else None;
      if reachable {
        if value.None? {
          cache := cache[key := Entry(EmptyMarker, now + EMPTY_TTL)];
        } else {
          cache := cache[key := Entry(Stored(value.value), now + PROFILE_TTL)];
        }
      }
    }

    method InvalidateProfile(key: Key, reachable: bool)
      modifies this`cache
      ensures Abstract() == Step(old(Abstract()), Invalidate(key, reachable))
    {
      if reachable {
        cache := cache - {key};
      }
    }

    method Recalculate(updates: seq<(Key, Profile)>, reachable: bool)
      modifies this
      ensures Abstract() == From(old(Abstract()), Recalculation(updates, reachable))
    {
      var pending: map<Key, Profile> := map[];
      ghost var start := Abstract();
      for i := 0 to |updates|
        invariant Abstract() == From(start, Invalidations(updates[..i], reachable))
        invariant profiles == old(profiles)
        invariant pending == Writes(updates[..i])
      {
        NextInvalidation(start, updates, i, reachable);
        pending := pending[updates[i].0 := updates[i].1];
        InvalidateProfile(updates[i].0, reachable);
      }
      assert updates[..|updates|] == updates;
      assert Front(Recalculation(updates, reachable)) == Invalidations(updates, reachable);
      profiles := profiles + pending;
    }
  }

  // ----- how old a cached answer can be

  /** The entry was written from what the loader returned at the `i`-th moment of the run. */
  predicate WrittenAt(profiles: map<Key, Profile>, run: seq<Event>, i: nat, key: Key, entry: Entry) {
    && i <= |run|
    && var then' := After(profiles, run[..i]);
       entry == Entry(RawOf(Load(then', key)), then'.now + TtlOf(Load(then', key)))
  }

  lemma {:induction false} ClockNeverGoesBack(profiles: map<Key, Profile>, run: seq<Event>, i: nat)
    requires i <= |run|
    ensures After(profiles, run[..i]).now <= After(profiles, run).now
  {
    if i < |run| {
      ClockNeverGoesBack(profiles, Front(run), i);
      assert Front(run)[..i] == run[..i];
    } else {
      assert run[..i] == run;
    }
  }

  lemma {:induction false} EntryOrigin(profiles: map<Key, Profile>, run: seq<Event>, key: Key) returns (i: nat)
    requires key in After(profiles, run).cache && After(profiles, run).cache[key].raw != Unusable
    ensures WrittenAt(profiles, run, i, key, After(profiles, run).cache[key])
  {
    var before := After(profiles, Front(run));
    if key in before.cache && before.cache[key] == After(profiles, run).cache[key] {
      i := EntryOrigin(profiles, Front(run), key);
      assert Front(run)[..i] == run[..i];
    } else {
      i := |run| - 1;
      assert run[..i] == Front(run);
    }
  }

  /** Whatever the interleaving of reads, invalidations, commits and foreign texts, a read returns
      what the loader returned at some moment less than that value's time-to-live ago. */
  lemma ReadIsRecent(profiles: map<Key, Profile>, run: seq<Event>, key: Key, reachable: bool) returns (i: nat)
    ensures i <= |run|
    ensures var s, then' := After(profiles, run), After(profiles, run[..i]);
            && ReadValue(s, key, reachable) == Load(then', key)
            && then'.now <= s.now < then'.now + TtlOf(Load(then', key))
  {
    if reachable && Hit(After(profiles, run), key) {
      i := EntryOrigin(profiles, run, key);
      ClockNeverGoesBack(profiles, run, i);
    } else {
      i := |run|;
      assert run[..i] == run;
    }
  }

  // ----- when cached answers are fresh

  /** Every read would return what a fresh load returns. */
  ghost predicate Coherent(s: State) {
    forall key :: Hit(s, key) ==> s.cache[key].raw == RawOf(Load(s, key))
  }

  lemma CoherentMeansFresh(s: State)
    ensures Coherent(s) <==> forall key, reachable :: ReadValue(s, key, reachable) == Load(s, key)
  {
    if forall key, reachable :: ReadValue(s, key, reachable) == Load(s, key) {
      forall key | Hit(s, key) ensures s.cache[key].raw == RawOf(Load(s, key)) {
        assert ReadValue(s, key, true) == Load(s, key);
      }
    }
  }

  /** Only a commit can break coherence, and it keeps it if and only if no live entry of a written
      key answers anything but the written profile. */
  lemma CoherenceKeptIff(s: State, e: Event)
    requires Coherent(s)
    ensures !e.Commit? ==> Coherent(Step(s, e))
    ensures e.Commit? ==>
              (Coherent(Step(s, e)) <==>
                 forall key :: key in e.writes && Hit(s, key) ==> s.cache[key].raw == Stored(e.writes[key]))
  {
    if e.Commit? {
      var after := Step(s, e);
      assert forall key :: Hit(after, key) <==> Hit(s, key);
    }
  }

  lemma {:induction false} InvalidationsRemove(s: State, updates: seq<(Key, Profile)>)
    ensures var after := From(s, Invalidations(updates, true));
            && after.now == s.now && after.profiles == s.profiles
            && after.cache == s.cache - Writes(updates).Keys
  {
    if updates != [] {
      InvalidationsRemove(s, Front(updates));
      assert Front(Invalidations(updates, true)) == Invalidations(Front(updates), true);
      assert Writes(updates).Keys == Writes(Front(updates)).Keys + {Last(updates).0};
    }
  }

  lemma {:induction false} FromAppend(s: State, a: seq<Event>, b: seq<Event>)
    ensures From(s, a + b) == From(From(s, a), b)
  {
    if b == [] {
      assert a + b == a;
    } else {
      FromAppend(s, a, Front(b));
      assert Front(a + b) == a + Front(b);
    }
  }

  /** A recalculation that reaches the store and runs without interruption keeps reads fresh. */
  lemma RecalculationKeepsCoherence(s: State, updates: seq<(Key, Profile)>)
    requires Coherent(s)
    ensures Coherent(From(s, Recalculation(updates, true)))
    ensures From(s, Recalculation(updates, true)).profiles == s.profiles + Writes(updates)
  {
    var middle := From(s, Invalidations(updates, true));
    InvalidationsRemove(s, updates);
    assert Coherent(middle) by {
      forall key | Hit(middle, key) ensures middle.cache[key].raw == RawOf(Load(middle, key)) {
        assert Hit(s, key);
      }
    }
    CoherenceKeptIff(middle, Commit(Writes(updates)));
    assert Front(Recalculation(updates, true)) == Invalidations(updates, true);
  }

  /** What happens when every recalculation is one uninterrupted step. */
  datatype Action = Recalculated(updates: seq<(Key, Profile)>) | Other(event: Event)

  function Events(actions: seq<Action>): seq<Event> {
    if actions == [] then []
    else Events(Front(actions)) + match Last(actions)
                                  case Recalculated(updates) => Recalculation(updates, true)
                                  case Other(e) => [e]
  }

  /** If uninterrupted recalculations that reach the store are the only writers, then after any such
      history every read returns exactly what a fresh load returns. */
  lemma {:induction false} AtomicRecalculationsKeepReadsFresh(profiles: map<Key, Profile>, actions: seq<Action>,
                                                              key: Key, reachable: bool)
    requires forall a :: a in actions && a.Other? ==> !a.event.Commit?
    ensures Coherent(After(profiles, Events(actions)))
    ensures ReadValue(After(profiles, Events(actions)), key, reachable) == Load(After(profiles, Events(actions)), key)
  {
    if actions != [] {
      AtomicRecalculationsKeepReadsFresh(profiles, Front(actions), key, reachable);
      var before := After(profiles, Events(Front(actions)));
      match Last(actions) {
        case Recalculated(updates) =>
          FromAppend(State(0, profiles, map[]), Events(Front(actions)), Recalculation(updates, true));
          RecalculationKeepsCoherence(before, updates);
        case Other(e) =>
          assert Front(Events(actions)) == Events(Front(actions));
          assert Last(actions) in actions;
          CoherenceKeptIff(before, e);
      }
    }
    CoherentMeansFresh(After(profiles, Events(actions)));
  }

  /** A read that falls between the invalidation and the commit of one recalculation makes the next
      read stale: it returns the old profile until the entry expires. */
  lemma InterruptedRecalculationIsStale(key: Key, old': Profile, new': Profile, wait: nat)
    requires old' != new' && wait < PROFILE_TTL
    ensures var run := [Invalidate(key, true), Read(key, true), Commit(map[key := new']), Tick(wait)];
            var s := After(map[key := old'], run);
            ReadValue(s, key, true) == Some(old') && Load(s, key) == Some(new')
  {
    var invalidate, read, commit, tick := Invalidate(key, true), Read(key, true), Commit(map[key := new']), Tick(wait);
    var s0 := State(0, map[key := old'], map[]);
    assert From(s0, [invalidate]) == s0 by {
      assert Front([invalidate]) == [];
    }
    var s1 := s0.(cache := map[key := Entry(Stored(old'), PROFILE_TTL)]);
    assert From(s0, [invalidate, read]) == s1 by {
      assert Front([invalidate, read]) == [invalidate];
    }
    var s2 := s1.(profiles := map[key := new']);
    assert From(s0, [invalidate, read, commit]) == s2 by {
      assert Front([invalidate, read, commit]) == [invalidate, read];
    }
    assert Front([invalidate, read, commit, tick]) == [invalidate, read, commit];
  }

  // ----- what one event does

  /** The store answers for the key: an entry that has not expired and can be decoded. */
  ghost predicate Answers(s: State, key: Key, entry: Entry) {
    key in s.cache && s.cache[key] == entry && s.now < entry.expires && entry.raw != Unusable
  }

  /** What is written for a loaded value: a profile for 600 seconds, the marker of a missing one for 60. */
  ghost predicate FreshEntry(s: State, key: Key, entry: Entry) {
    || (key in s.profiles && entry.raw == Stored(s.profiles[key]) && entry.expires == s.now + 600)
    || (key !in s.profiles && entry.raw == EmptyMarker && entry.expires == s.now + 60)
  }

  /** A read answers from the store exactly when the store is reachable and answers for the key, and then
      changes nothing. Otherwise it loads, and refills the entry of that key, and no other, exactly when
      the store is reachable. */
  lemma ReadMeaning(s: State, key: Key, reachable: bool)
    ensures var after, value := Step(s, Read(key, reachable)), ReadValue(s, key, reachable);
            && after.now == s.now && after.profiles == s.profiles
            && (forall entry :: reachable && Answers(s, key, entry) ==>
                 && after == s
                 && (entry.raw == EmptyMarker ==> value == None)
                 && (entry.raw.Stored? ==> value == Some(entry.raw.profile)))
            && ((!reachable || forall entry :: !Answers(s, key, entry)) ==>
                 && (key in s.profiles ==> value == Some(s.profiles[key]))
                 && (key !in s.profiles ==> value == None)
                 && (!reachable ==> after == s)
                 && (reachable ==>
                      && after.cache.Keys == s.cache.Keys + {key} && FreshEntry(s, key, after.cache[key])
                      && forall other :: other in s.cache && other != key ==> after.cache[other] == s.cache[other]))
  {
    if key in s.cache {
      assert Hit(s, key) <==> Answers(s, key, s.cache[key]);
    }
  }

  /** No answer is older than ten minutes, and no missing profile is reported more than a minute late. */
  lemma AnswerAge(profiles: map<Key, Profile>, run: seq<Event>, key: Key, reachable: bool) returns (i: nat)
    ensures i <= |run|
    ensures var s, then' := After(profiles, run), After(profiles, run[..i]);
            && then'.now <= s.now < then'.now + 600
            && (ReadValue(s, key, reachable) == None ==> key !in then'.profiles && s.now < then'.now + 60)
            && (ReadValue(s, key, reachable) != None ==>
                  key in then'.profiles && ReadValue(s, key, reachable) == Some(then'.profiles[key]))
  {
    i := ReadIsRecent(profiles, run, key, reachable);
  }

  /** A recalculation writes, for each key, the last of its updates. */
  lemma {:induction false} WritesMeaning(updates: seq<(Key, Profile)>, key: Key)
    ensures key in Writes(updates) <==> exists i :: 0 <= i < |updates| && updates[i].0 == key
    ensures forall i :: 0 <= i < |updates| && updates[i].0 == key
                        && (forall j :: i < j < |updates| ==> updates[j].0 != key) ==>
              key in Writes(updates) && Writes(updates)[key] == updates[i].1
  {
    if updates != [] {
      var n, front := |updates| - 1, Front(updates);
      WritesMeaning(front, key);
      forall i | 0 <= i < n && updates[i].0 == key && forall j :: i < j < |updates| ==> updates[j].0 != key
        ensures key in Writes(updates) && Writes(updates)[key] == updates[i].1
      {
        assert front[i] == updates[i] && updates[n].0 != key;
        forall j | i < j < n ensures front[j].0 != key {
          assert front[j] == updates[j];
        }
      }
      if i :| 0 <= i < n && updates[i].0 == key {
        assert front[i] == updates[i];
      }
    }
  }
}
