/** The version strings of a registry, and what one agent's turn in a synchronisation does. */
module PromptVersions {
  import opened Common
  import opened PromptRegistry

  // ----- the version strings of every run

  /** The agent's rows above position `i`. */
  ghost function OwnAbove(rows: seq<Row>, agent: string, i: nat): set<nat> {
    set j: nat | j < i && j < |rows| && rows[j].agent == agent
  }

  /** The first row of an agent is `v1.0`, the next `v1.1`, and so on without a gap. */
  ghost predicate Counted(rows: seq<Row>) {
    forall i :: 0 <= i < |rows| ==> CountedAt(rows, i)
  }

  ghost predicate CountedAt(rows: seq<Row>, i: nat)
    requires i < |rows|
  {
    rows[i].version == "v1." + Decimal(|OwnAbove(rows, rows[i].agent, i)|)
  }

  lemma OwnAboveStep(rows: seq<Row>, agent: string, i: nat)
    requires i < |rows|
    ensures |OwnAbove(rows, agent, i + 1)| == |OwnAbove(rows, agent, i)| + if rows[i].agent == agent then 1 else 0
  {
    assert OwnAbove(rows, agent, i + 1) == OwnAbove(rows, agent, i) + if rows[i].agent == agent then {i} else {};
  }

  lemma OwnAboveSame(rows: seq<Row>, after: seq<Row>, agent: string, i: nat)
    requires i <= |rows| <= |after| && forall j :: 0 <= j < i ==> rows[j].agent == after[j].agent
    ensures OwnAbove(rows, agent, i) == OwnAbove(after, agent, i)
  {
  }

  lemma {:induction false} MaxMinorCounts(rows: seq<Row>, agent: string)
    requires Counted(rows)
    ensures var n := |OwnAbove(rows, agent, |rows|)|; MaxMinor(rows, agent) == if n == 0 then 0 else n - 1
  {
    if rows == [] {
      assert OwnAbove(rows, agent, 0) == {};
    } else {
      var n, front := |rows| - 1, Front(rows);
      forall i | 0 <= i < n ensures CountedAt(front, i) {
        assert CountedAt(rows, i);
        OwnAboveSame(front, rows, rows[i].agent, i);
      }
      MaxMinorCounts(front, agent);
      OwnAboveSame(front, rows, agent, n);
      OwnAboveStep(rows, agent, n);
      assert CountedAt(rows, n);
      MinorOfVersion(|OwnAbove(rows, rows[n].agent, n)|);
    }
  }

  lemma NoRowsNoneAbove(rows: seq<Row>, agent: string, i: nat)
    requires i <= |rows|
    ensures !HasRows(rows[..i], agent) <==> OwnAbove(rows, agent, i) == {}
  {
    if HasRows(rows[..i], agent) {
      var j: nat :| j < i && rows[..i][j].agent == agent;
      assert j in OwnAbove(rows, agent, i);
    }
    if j: nat :| j in OwnAbove(rows, agent, i) {
      assert rows[..i][j].agent == agent;
    }
  }

  /** The version a sync gives to a new row: it counts the rows of the agent. */
  lemma NextVersionCounts(rows: seq<Row>, agent: string, flushed: nat)
    requires Counted(rows) && flushed <= |rows| && NothingPending(rows, flushed, agent)
    ensures NextVersion(rows[..flushed], agent) == "v1." + Decimal(|OwnAbove(rows, agent, |rows|)|)
  {
    var seen := rows[..flushed];
    forall i | 0 <= i < flushed ensures CountedAt(seen, i) {
      assert CountedAt(rows, i);
      OwnAboveSame(seen, rows, rows[i].agent, i);
    }
    MaxMinorCounts(seen, agent);
    OwnAboveSame(seen, rows, agent, flushed);
    assert OwnAbove(rows, agent, |rows|) == OwnAbove(rows, agent, flushed);
    NoRowsNoneAbove(rows, agent, flushed);
  }

  lemma AppendedCounts(rows: seq<Row>, after: seq<Row>)
    requires Counted(rows) && Extends(after, rows) && |after| <= |rows| + 1
    requires |after| > |rows| ==>
               after[|rows|].version == "v1." + Decimal(|OwnAbove(rows, after[|rows|].agent, |rows|)|)
    ensures Counted(after)
  {
    forall i | 0 <= i < |after| ensures CountedAt(after, i) {
      OwnAboveSame(rows, after, after[i].agent, i);
      assert i < |rows| ==> CountedAt(rows, i);
    }
  }

  lemma SyncOneCounts(rows: seq<Row>, flushed: nat, agent: string, hash: string)
    requires flushed <= |rows| && Invariant(rows) && NothingPending(rows, flushed, agent) && Counted(rows)
    ensures Counted(SyncOne(rows, flushed, agent, hash))
  {
    SyncOneShape(rows, flushed, agent, hash);
    PendingHidesNothing(rows, flushed, agent);
    NextVersionCounts(rows, agent, flushed);
    NoRowsNoneAbove(rows, agent, |rows|);
    assert rows[..|rows|] == rows && AgentOk(rows, agent);
    assert Decimal(0) == "0";
    AppendedCounts(rows, SyncOne(rows, flushed, agent, hash));
  }

  lemma {:induction false} SyncCounts(rows: seq<Row>, files: map<string, string>, k: nat)
    requires FilesReadable(files) && k <= |AGENTS| && Invariant(rows) && Counted(rows)
    ensures Counted(SyncUpTo(rows, files, k))
  {
    if k > 0 {
      var before, agent := SyncUpTo(rows, files, k - 1), AGENTS[k - 1];
      SyncCounts(rows, files, k - 1);
      SyncKeepsInvariant(rows, files, k - 1);
      assert SyncUpTo(rows, files, k) == SyncOne(before, |rows|, agent, files[agent]);
      SyncOneCounts(before, |rows|, agent, files[agent]);
    }
  }

  /** In every run the versions of an agent are `v1.0`, `v1.1`, ... in the order of its rows. */
  lemma {:induction false} RunCountsVersions(run: seq<Call>)
    ensures Counted(After(run))
  {
    if run != [] {
      var rows := After(Front(run));
      RunCountsVersions(Front(run));
      RunInvariant(Front(run));
      match Last(run) {
        case SyncCall(files) =>
          if FilesReadable(files) {
            SyncCounts(rows, files, |AGENTS|);
          }
        case ActivateCall(agent, version) =>
          var target := FindVersion(rows, agent, version);
          if target.Some? {
            ActivateKeepsInvariant(rows, agent, target.value);
            AppendedCounts(rows, Activated(rows, agent, target.value));
          }
      }
    }
  }

  // ----- the version pattern

  /** `v1.` and at least one digit. */
  ghost predicate IsVersion(text: string) {
    && |text| >= 4 && text[0] == 'v' && text[1] == '1' && text[2] == '.'
    && forall k :: 3 <= k < |text| ==> text[k] in "0123456789"
  }

  lemma DigitMeaning(c: char)
    ensures '0' <= c <= '9' <==> c in "0123456789"
  {
    if '0' <= c <= '9' {
      assert c == "0123456789"[c as int - '0' as int];
    }
  }

  lemma PatternMeaning(text: string)
    ensures MinorOf(text).Some? <==> IsVersion(text)
  {
    if |text| > 3 {
      var digits := text[3..];
      assert text[..3] == [text[0], text[1], text[2]];
      forall k | 3 <= k < |text| ensures text[k] in "0123456789" <==> '0' <= digits[k - 3] <= '9' {
        DigitMeaning(text[k]);
      }
      if IsVersion(text) {
        forall i | 0 <= i < |digits| ensures '0' <= digits[i] <= '9' {
          assert text[i + 3] in "0123456789";
        }
      }
      if AllDigits(digits) {
        forall k | 3 <= k < |text| ensures text[k] in "0123456789" {
          assert '0' <= digits[k - 3] <= '9';
        }
      }
    }
  }

  // ----- one agent's turn

  ghost predicate InUse(r: Row, agent: string) {
    r.agent == agent && r.status == ActiveStatus && r.isActive
  }

  /** The first row of the agent in use, among those the query sees. */
  ghost predicate FirstInUse(rows: seq<Row>, flushed: nat, agent: string, i: nat) {
    i < flushed <= |rows| && InUse(rows[i], agent) && forall j :: 0 <= j < i ==> !InUse(rows[j], agent)
  }

  ghost predicate NewInUse(r: Row, agent: string, hash: string) {
    InUse(r, agent) && r.hash == hash
  }

  ghost predicate ArchivesOnly(rows: seq<Row>, after: seq<Row>, i: nat)
    requires i < |rows| <= |after|
  {
    && after[i].status == ArchivedStatus && !after[i].isActive
    && after[i].agent == rows[i].agent && after[i].version == rows[i].version && after[i].hash == rows[i].hash
    && forall j :: 0 <= j < |rows| && j != i ==> after[j] == rows[j]
  }

  lemma {:induction false} FirstInUseFound(rows: seq<Row>, flushed: nat, agent: string)
    requires flushed <= |rows|
    ensures var found := FindActive(rows[..flushed], agent);
            && (found.Some? ==> FirstInUse(rows, flushed, agent, found.value))
            && (found.None? ==> forall i :: 0 <= i < flushed ==> !InUse(rows[i], agent))
    decreases flushed
  {
    var seen := rows[..flushed];
    if found: nat :| FindActive(seen, agent) == Some(found) {
      FindActiveFirst(seen, agent, found);
      forall j | 0 <= j < found ensures !InUse(rows[j], agent) {
        assert !ActiveFor(seen[j], agent);
      }
    } else {
      forall i | 0 <= i < flushed ensures !InUse(rows[i], agent) {
        assert !ActiveFor(seen[i], agent);
      }
    }
  }

  lemma {:induction false} FindActiveFirst(rows: seq<Row>, agent: string, found: nat)
    requires FindActive(rows, agent) == Some(found)
    ensures forall j :: 0 <= j < found ==> !ActiveFor(rows[j], agent)
  {
    if !ActiveFor(rows[0], agent) {
      FindActiveFirst(rows[1..], agent, found - 1);
      forall j | 0 <= j < found ensures !ActiveFor(rows[j], agent) {
        assert j > 0 ==> rows[j] == rows[1..][j - 1];
      }
    }
  }

  /** Without a row in use, one is added as `v1.0`. */
  lemma FirstTurn(rows: seq<Row>, flushed: nat, agent: string, hash: string)
    requires flushed <= |rows| && forall i :: 0 <= i < flushed ==> !InUse(rows[i], agent)
    ensures var after := SyncOne(rows, flushed, agent, hash);
            && |after| == |rows| + 1 && after[..|rows|] == rows
            && NewInUse(Last(after), agent, hash) && Last(after).version == "v1.0"
  {
    FirstInUseFound(rows, flushed, agent);
    assert Decimal(0) == "0";
  }

  /** With a row of the file's hash in use nothing changes; one of another hash is archived, and a row
      with the file's hash is added. */
  lemma LaterTurn(rows: seq<Row>, flushed: nat, agent: string, hash: string, i: nat)
    requires FirstInUse(rows, flushed, agent, i)
    ensures var after := SyncOne(rows, flushed, agent, hash);
            if rows[i].hash == hash then after == rows
            else |after| == |rows| + 1 && ArchivesOnly(rows, after, i) && NewInUse(Last(after), agent, hash)
  {
    FirstInUseFound(rows, flushed, agent);
    assert FindActive(rows[..flushed], agent) == Some(i);
    assert rows[i].hash == hash ==> rows[i := rows[i].(status := ActiveStatus, isActive := true)] == rows;
  }

  /** Activating a version puts the first row of that version in use, and takes every other row of the
      agent out of use; the rows of other agents stay as they are, and a status other than active too. */
  lemma ActivationMeaning(rows: seq<Row>, agent: string, version: string, i: nat)
    requires i < |rows| && rows[i].agent == agent && rows[i].version == version
    requires forall j :: 0 <= j < i ==> !(rows[j].agent == agent && rows[j].version == version)
    ensures var after := Step(rows, ActivateCall(agent, version));
            && |after| == |rows| && InUse(after[i], agent)
            && after[i].version == version && after[i].hash == rows[i].hash
            && (forall j :: 0 <= j < |rows| && rows[j].agent != agent ==> after[j] == rows[j])
            && forall j :: 0 <= j < |rows| && rows[j].agent == agent && j != i ==> TakenOut(rows[j], after[j])
  {
    FirstVersionFound(rows, agent, version, i);
  }

  ghost predicate TakenOut(before: Row, after: Row) {
    && !after.isActive
    && after.agent == before.agent && after.version == before.version && after.hash == before.hash
    && (before.status == ActiveStatus ==> after.status == ArchivedStatus)
    && (before.status != ActiveStatus ==> after.status == before.status)
  }

  lemma {:induction false} FirstVersionFound(rows: seq<Row>, agent: string, version: string, i: nat)
    requires i < |rows| && rows[i].agent == agent && rows[i].version == version
    requires forall j :: 0 <= j < i ==> !(rows[j].agent == agent && rows[j].version == version)
    ensures FindVersion(rows, agent, version) == Some(i)
  {
    if i > 0 {
      forall j | 0 <= j < i - 1 ensures !(rows[1..][j].agent == agent && rows[1..][j].version == version) {
        assert rows[1..][j] == rows[j + 1];
      }
      FirstVersionFound(rows[1..], agent, version, i - 1);
    }
  }

  /** A version the agent does not have cannot be activated. */
  lemma UnknownVersionChangesNothing(rows: seq<Row>, agent: string, version: string)
    requires forall j :: 0 <= j < |rows| ==> !(rows[j].agent == agent && rows[j].version == version)
    ensures Step(rows, ActivateCall(agent, version)) == rows
  {
  }
}
