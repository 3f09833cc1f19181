/** What a session remembers, in terms of the appends it saw: which keys are dropped, which value a
    context key has, which messages are kept, and which summary. */
module SessionMeaning {
  import opened Common
  import opened SessionMemory

  // ----- the dropped keys

  const UPPER := "ABCDEFGHIJKLMNOPQRSTUVWXYZ"
  const LOWER := "abcdefghijklmnopqrstuvwxyz"

  /** `c` is the lower-case letter `d` in either case, or `d` itself. */
  ghost predicate SameLetter(c: char, d: char) {
    c == d || exists i :: 0 <= i < 26 && c == UPPER[i] && d == LOWER[i]
  }

  /** The key is the name, whatever the case of its letters. */
  ghost predicate SameName(key: string, name: string) {
    |key| == |name| && forall i :: 0 <= i < |key| ==> SameLetter(key[i], name[i])
  }

  ghost predicate NoUpperCase(name: string) {
    forall i :: 0 <= i < |name| ==> !('A' <= name[i] <= 'Z')
  }

  lemma LetterMeaning(c: char, d: char)
    requires !('A' <= d <= 'Z')
    ensures LowerChar(c) == d <==> SameLetter(c, d)
  {
    if 'A' <= c <= 'Z' {
      var i := c as int - 'A' as int;
      UpperAt(i);
      if LowerChar(c) == d {
        assert c == UPPER[i] && d == LOWER[i];
      }
    }
    if j :| 0 <= j < 26 && c == UPPER[j] && d == LOWER[j] {
      UpperAt(j);
    }
  }

  lemma UpperAt(i: int)
    requires 0 <= i < 26
    ensures UPPER[i] as int == 'A' as int + i && LOWER[i] as int == 'a' as int + i
  {
  }

  lemma NameMeaning(key: string, name: string)
    requires NoUpperCase(name)
    ensures Lower(key) == name <==> SameName(key, name)
  {
    forall i | 0 <= i < |key| && i < |name| ensures Lower(key)[i] == name[i] <==> SameLetter(key[i], name[i]) {
      LetterMeaning(key[i], name[i]);
    }
    if SameName(key, name) {
      forall i | 0 <= i < |key| ensures Lower(key)[i] == name[i] {
        assert SameLetter(key[i], name[i]);
      }
    }
  }

  lemma BlockedNamesLower(name: string)
    requires name in BLOCKED_KEYS
    ensures NoUpperCase(name)
  {
  }

  /** A key is dropped if and only if it is one of the blocked names, in any case. */
  lemma BlockedMeaning(key: string)
    ensures Blocked(key) <==> exists name :: name in BLOCKED_KEYS && SameName(key, name)
  {
    if Blocked(key) {
      BlockedNamesLower(Lower(key));
      NameMeaning(key, Lower(key));
    }
    if name :| name in BLOCKED_KEYS && SameName(key, name) {
      BlockedNamesLower(name);
      NameMeaning(key, name);
    }
  }

  /** Sanitising the fields is sanitising the object they make up. */
  lemma FieldsMeaning(fields: map<string, Json>)
    ensures Sanitize(Obj(fields)) == Obj(SanitizeFields(fields))
  {
  }

  // ----- the log

  /** The log is what was appended after the last expiry, from position `start` on. */
  ghost predicate IsLog(run: seq<Event>, start: nat, log: seq<Append>) {
    && start <= |run| && (start > 0 ==> run[start - 1].Expired?)
    && |log| == |run| - start
    && forall i :: 0 <= i < |log| ==> run[start + i] == Appended(log[i])
  }

  lemma {:induction false} LogMeaning(run: seq<Event>) returns (start: nat)
    ensures IsLog(run, start, SinceExpiry(run))
  {
    if run == [] || Last(run).Expired? {
      start := |run|;
    } else {
      start := LogMeaning(Front(run));
    }
  }

  /** The `k`-th append is the last to give the key a value. */
  ghost predicate LastToSet(log: seq<Append>, key: string, k: nat) {
    && k < |log| && Sets(log[k], key)
    && forall j :: k < j < |log| ==> !Sets(log[j], key)
  }

  ghost predicate Sets(a: Append, key: string) {
    key in a.context && a.context[key] != Null
  }

  /** A key of the merged context has the value of the last append that gave it one. */
  lemma {:induction false} ContextMeaning(log: seq<Append>, key: string)
    ensures key in RawContext(log) <==> exists k: nat :: LastToSet(log, key, k)
    ensures forall k: nat :: LastToSet(log, key, k) ==> key in RawContext(log)
                                                        && RawContext(log)[key] == log[k].context[key]
  {
    if log != [] {
      var n, front := |log| - 1, Front(log);
      ContextMeaning(front, key);
      MergeMeaning(RawContext(front), log[n].context, key);
      if Sets(log[n], key) {
        assert LastToSet(log, key, n);
      } else {
        forall k: nat ensures LastToSet(log, key, k) <==> LastToSet(front, key, k) {
          LastToSetInFront(log, key, k);
        }
      }
    }
  }

  lemma LastToSetInFront(log: seq<Append>, key: string, k: nat)
    requires log != [] && !Sets(Last(log), key)
    ensures LastToSet(log, key, k) <==> LastToSet(Front(log), key, k)
  {
    if LastToSet(Front(log), key, k) {
      forall j | k < j < |log| ensures !Sets(log[j], key) {
        assert j < |log| - 1 ==> Front(log)[j] == log[j];
      }
    }
    if LastToSet(log, key, k) {
      assert k != |log| - 1;
    }
  }

  /** The summary of the last append that brought one. */
  ghost predicate IsSummary(log: seq<Append>, summary: Option<string>) {
    || (summary == None && forall j :: 0 <= j < |log| ==> log[j].summary == None)
    || exists k :: 0 <= k < |log| && SummaryFrom(log, k, summary)
  }

  ghost predicate SummaryFrom(log: seq<Append>, k: nat, summary: Option<string>)
    requires k < |log|
  {
    log[k].summary == summary && summary != None && forall j :: k < j < |log| ==> log[j].summary == None
  }

  lemma {:induction false} SummaryMeaning(log: seq<Append>)
    ensures IsSummary(log, LatestSummary(log))
  {
    if log != [] {
      var n, front, latest := |log| - 1, Front(log), LatestSummary(log);
      if log[n].summary.Some? {
        assert SummaryFrom(log, n, latest);
      } else {
        SummaryMeaning(front);
        if k :| 0 <= k < |front| && SummaryFrom(front, k, latest) {
          assert SummaryFrom(log, k, latest);
        } else {
          forall j | 0 <= j < |log| ensures log[j].summary == None {
            assert j < n ==> front[j] == log[j];
          }
        }
      }
    }
  }

  /** The stored entry: at most the last twenty messages, each sanitised; the number of appends, or 21
      when there were more than twenty; the last summary; and the merged context without blocked keys. */
  ghost predicate IsEntryOf(log: seq<Append>, entry: Entry) {
    && |entry.messages| == (if |log| <= 20 then |log| else 20)
    && (forall i :: 0 <= i < |entry.messages| ==>
         entry.messages[i] == Sanitize(log[|log| - |entry.messages| + i].message))
    && entry.messageCount == (if |log| <= 20 then |log| else 21)
    && IsSummary(log, entry.summary)
    && Obj(entry.context) == Sanitize(Obj(RawContext(log)))
  }

  /** In every run, the store holds an entry exactly if something was appended since the last expiry,
      and the entry is that of the log. */
  lemma StoredEntryMeaning(run: seq<Event>) returns (start: nat, log: seq<Append>)
    ensures IsLog(run, start, log)
    ensures After(run).cached.None? <==> log == []
    ensures log != [] ==> IsEntryOf(log, After(run).cached.value)
  {
    log := SinceExpiry(run);
    start := LogMeaning(run);
    StoredSessionIsSanitisedLog(run);
    SummaryMeaning(log);
    FieldsMeaning(RawContext(log));
  }
}
