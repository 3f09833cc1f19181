/** Versions of the agents' prompts: synchronised from files, one active version for each agent. */
module PromptRegistry {
  import opened Common

  datatype Status = ActiveStatus | ArchivedStatus | OtherStatus(text: string)

  datatype Row = Row(agent: string, version: string, hash: string, status: Status, isActive: bool)

  datatype Error = MissingFile(agent: string) | UnknownVersion

  const AGENTS: seq<string> := [
    "safety_supervisor", "risk_profile_analyst", "rule_compliance_checker",
    "work_order_coordinator", "nl2sql_analyst", "hazard_rectification_advisor"]

  // ----- version strings

  function Version(minor: nat): string {
    "v1." + Decimal(minor)
  }

  predicate AllDigits(s: string) {
    forall i :: 0 <= i < |s| ==> '0' <= s[i] <= '9'
  }

  /** The pattern `v1.<digits>`; the number is `None` for every other text. */
  function MinorOf(version: string): Option<int> {
    if |version| > 3 && version[..3] == "v1." && AllDigits(version[3..])
    then Some(ParseDecimal(version[3..]))
    else None
  }

  lemma {:induction false} DecimalDigits(n: nat)
    ensures Decimal(n) != [] && AllDigits(Decimal(n))
  {
    if n >= 10 {
      DecimalDigits(n / 10);
    }
  }

  lemma MinorOfVersion(n: nat)
    ensures MinorOf(Version(n)) == Some(n)
  {
    DecimalDigits(n);
    DecimalRoundTrip(n);
    assert Version(n)[..3] == "v1." && Version(n)[3..] == Decimal(n);
  }

  function MaxMinor(rows: seq<Row>, agent: string): (max: nat)
    ensures forall i :: 0 <= i < |rows| && rows[i].agent == agent && MinorOf(rows[i].version).Some? ==>
              MinorOf(rows[i].version).value <= max
  {
    if rows == [] then 0
    else
      var rest := MaxMinor(Front(rows), agent);
      var minor := MinorOf(Last(rows).version);
      if Last(rows).agent == agent && minor.Some? && minor.value > rest then minor.value else rest
  }

  predicate HasRows(rows: seq<Row>, agent: string) {
    exists i :: 0 <= i < |rows| && rows[i].agent == agent
  }

  function NextVersion(rows: seq<Row>, agent: string): string {
    if !HasRows(rows, agent) then Version(0) else Version(MaxMinor(rows, agent) + 1)
  }

  // ----- the queries and the two operations

  predicate ActiveFor(r: Row, agent: string) {
    r.agent == agent && r.status == ActiveStatus && r.isActive
  }

  /** The position of the active row of an agent. */
  function FindActive(rows: seq<Row>, agent: string): (found: Option<nat>)
    ensures found.Some? ==> found.value < |rows| && ActiveFor(rows[found.value], agent)
    ensures found.None? ==> forall i :: 0 <= i < |rows| ==> !ActiveFor(rows[i], agent)
  {
    if rows == [] then None
    else if ActiveFor(rows[0], agent) then Some(0)
    else match FindActive(rows[1..], agent)
         case None => None
         case Some(i) => Some(i + 1)
  }

  function FindVersion(rows: seq<Row>, agent: string, version: string): (found: Option<nat>)
    ensures found.Some? ==>
              found.value < |rows| && rows[found.value].agent == agent && rows[found.value].version == version
    ensures found.None? ==> forall i :: 0 <= i < |rows| ==> !(rows[i].agent == agent && rows[i].version == version)
  {
    if rows == [] then None
    else if rows[0].agent == agent && rows[0].version == version then Some(0)
    else match FindVersion(rows[1..], agent, version)
         case None => None
         case Some(i) => Some(i + 1)
  }

  function Deactivated(r: Row, agent: string): Row {
    if r.agent != agent then r
    else r.(isActive := false, status := if r.status == ActiveStatus then ArchivedStatus else r.status)
  }

  function Activated(rows: seq<Row>, agent: string, target: nat): seq<Row>
    requires target < |rows|
  {
    var off := seq(|rows|, i requires 0 <= i < |rows| => Deactivated(rows[i], agent));
    off[target := off[target].(isActive := true, status := ActiveStatus)]
  }

  /** One agent's turn in a synchronisation whose queries see the first `flushed` rows. */
  function SyncOne(rows: seq<Row>, flushed: nat, agent: string, hash: string): seq<Row>
    requires flushed <= |rows|
  {
    match FindActive(rows[..flushed], agent)
    case None => rows + [Row(agent, Version(0), hash, ActiveStatus, true)]
    case Some(i) =>
      if rows[i].hash == hash then rows[i := rows[i].(status := ActiveStatus, isActive := true)]
      else rows[i := rows[i].(status := ArchivedStatus, isActive := false)]
           + [Row(agent, NextVersion(rows[..flushed], agent), hash, ActiveStatus, true)]
  }

  ghost predicate FilesReadable(files: map<string, string>) {
    forall a :: a in AGENTS ==> a in files
  }

  function SyncUpTo(rows: seq<Row>, files: map<string, string>, k: nat): (after: seq<Row>)
    requires FilesReadable(files) && k <= |AGENTS|
    ensures |rows| <= |after|
  {
    if k == 0 then rows else SyncOne(SyncUpTo(rows, files, k - 1), |rows|, AGENTS[k - 1], files[AGENTS[k - 1]])
  }

  datatype Call = SyncCall(files: map<string, string>) | ActivateCall(agent: string, version: string)

  ghost function Step(rows: seq<Row>, call: Call): seq<Row> {
    match call
    case SyncCall(files) => if FilesReadable(files) then SyncUpTo(rows, files, |AGENTS|) else rows
    case ActivateCall(agent, version) =>
      match FindVersion(rows, agent, version)
      case None => rows
      case Some(i) => Activated(rows, agent, i)
  }

  /** The table; with autoflush off a query sees the first `flushed` rows only. */
  class Registry {
    var rows: seq<Row>
    var flushed: nat

    ghost predicate Committed()
      reads this
    {
      flushed == |rows|
    }

    constructor ()
      ensures rows == [] && Committed()
    {
      rows, flushed := [], 0;
    }

    /** The loop body of a synchronisation. */
    method SyncAgent(agent: string, hash: string)
      requires flushed <= |rows|
      modifies this`rows
      ensures rows == SyncOne(old(rows), flushed, agent, hash)
    {
      var active := FindActive(rows[..flushed], agent);
      if active.None? {
        rows := rows + [Row(agent, Version(0), hash, ActiveStatus, true)];
      } else if rows[active.value].hash == hash {
        rows := rows[active.value := rows[active.value].(status := ActiveStatus, isActive := true)];
      } else {
        var version := NextVersion(rows[..flushed], agent);
        rows := rows[active.value := rows[active.value].(status := ArchivedStatus, isActive := false)];
        rows := rows + [Row(agent, version, hash, ActiveStatus, true)];
      }
    }

    method Sync(files: map<string, string>) returns (r: Result<nat, Error>)
      requires Committed()
      modifies this
      ensures Committed() && rows == Step(old(rows), SyncCall(files))
      ensures r.Ok? <==> FilesReadable(files)
      ensures r.Ok? ==> r.value == |AGENTS|
      ensures r.Err? ==> rows == old(rows)
    {
      var before := rows;
      var synced := 0;
      while synced < |AGENTS|
        invariant synced <= |AGENTS| && before == old(rows) && flushed == |before| <= |rows|
        invariant forall i :: 0 <= i < synced ==> AGENTS[i] in files
        invariant FilesReadable(files) ==> rows == SyncUpTo(before, files, synced)
      {
        var agent := AGENTS[synced];
        if agent !in files {
          rows := before;
          return Err(MissingFile(agent));
        }
        SyncAgent(agent, files[agent]);
        synced := synced + 1;
      }
      flushed := |rows|;
      r := Ok(synced);
    }

    method Activate(agent: string, version: string) returns (r: Result<Row, Error>)
      requires Committed()
      modifies this
      ensures Committed() && rows == Step(old(rows), ActivateCall(agent, version))
      ensures r.Err? <==> FindVersion(old(rows), agent, version).None?
      ensures r.Ok? ==> r.value in rows && ActiveFor(r.value, agent) && r.value.version == version
    {
      var target := FindVersion(rows, agent, version);
      if target.None? {
        return Err(UnknownVersion);
      }
      DeactivateAll(agent);
      rows := rows[target.value := rows[target.value].(isActive := true, status := ActiveStatus)];
      assert rows[target.value] in rows;
      r := Ok(rows[target.value]);
    }

    method DeactivateAll(agent: string)
      modifies this`rows
      ensures |rows| == |old(rows)|
      ensures forall i :: 0 <= i < |rows| ==> rows[i] == Deactivated(old(rows)[i], agent)
    {
      for i := 0 to |rows|
        invariant |rows| == |old(rows)|
        invariant forall j :: 0 <= j < i ==> rows[j] == Deactivated(old(rows)[j], agent)
        invariant forall j :: i <= j < |rows| ==> rows[j] == old(rows)[j]
      {
        rows := rows[i := Deactivated(rows[i], agent)];
      }
    }
  }

  // ----- what every run keeps

  /** The agent's rows hold exactly one active row, at position `i`. */
  ghost predicate SoleActive(rows: seq<Row>, agent: string, i: int) {
    0 <= i < |rows| && ActiveFor(rows[i], agent) && forall j :: 0 <= j < |rows| && ActiveFor(rows[j], agent) ==> j == i
  }

  ghost predicate AgentOk(rows: seq<Row>, agent: string) {
    HasRows(rows, agent) ==> exists i :: SoleActive(rows, agent, i)
  }

  ghost predicate StatusMatchesFlag(rows: seq<Row>) {
    forall i :: 0 <= i < |rows| ==> (rows[i].status == ActiveStatus <==> rows[i].isActive)
  }

  ghost predicate VersionsDistinct(rows: seq<Row>) {
    forall i, j :: 0 <= i < j < |rows| && rows[i].agent == rows[j].agent ==> rows[i].version != rows[j].version
  }

  ghost predicate Invariant(rows: seq<Row>) {
    StatusMatchesFlag(rows) && VersionsDistinct(rows) && forall a :: AgentOk(rows, a)
  }

  /** Rows are never deleted, and agent, version and hash of a row never change. */
  ghost predicate Extends(after: seq<Row>, before: seq<Row>) {
    && |before| <= |after|
    && forall i :: 0 <= i < |before| ==>
         (after[i].agent, after[i].version, after[i].hash) == (before[i].agent, before[i].version, before[i].hash)
  }

  lemma NextVersionFresh(rows: seq<Row>, agent: string)
    ensures forall i :: 0 <= i < |rows| && rows[i].agent == agent ==> rows[i].version != NextVersion(rows, agent)
  {
    MinorOfVersion(MaxMinor(rows, agent) + 1);
  }

  /** The rows of an agent that are not flushed yet; empty when its turn in a sync comes. */
  ghost predicate NothingPending(rows: seq<Row>, flushed: nat, agent: string) {
    forall i :: flushed <= i < |rows| ==> rows[i].agent != agent
  }

  lemma PendingHidesNothing(rows: seq<Row>, flushed: nat, agent: string)
    requires flushed <= |rows| && NothingPending(rows, flushed, agent)
    ensures forall i :: 0 <= i < |rows| && ActiveFor(rows[i], agent) ==>
              i < flushed && ActiveFor(rows[..flushed][i], agent)
    ensures HasRows(rows, agent) <==> HasRows(rows[..flushed], agent)
    ensures forall i :: 0 <= i < |rows| && rows[i].agent == agent ==>
              rows[i].version != NextVersion(rows[..flushed], agent)
  {
    NextVersionFresh(rows[..flushed], agent);
    if HasRows(rows, agent) {
      var i :| 0 <= i < |rows| && rows[i].agent == agent;
      assert rows[..flushed][i].agent == agent;
    }
    forall i | 0 <= i < |rows| && rows[i].agent == agent
      ensures rows[i].version != NextVersion(rows[..flushed], agent)
    {
      assert rows[..flushed][i] == rows[i];
    }
  }

  lemma OtherAgentUntouched(rows: seq<Row>, after: seq<Row>, agent: string, other: string)
    requires other != agent && |rows| <= |after|
    requires forall i :: 0 <= i < |rows| ==> after[i] == rows[i] || (rows[i].agent == agent && after[i].agent == agent)
    requires forall i :: |rows| <= i < |after| ==> after[i].agent == agent
    ensures HasRows(after, other) <==> HasRows(rows, other)
    ensures forall i :: SoleActive(after, other, i) <==> SoleActive(rows, other, i)
  {
    if HasRows(rows, other) {
      var i :| 0 <= i < |rows| && rows[i].agent == other;
      assert after[i].agent == other;
    }
    forall i ensures SoleActive(after, other, i) <==> SoleActive(rows, other, i) {
      assert forall j :: 0 <= j < |rows| ==> (ActiveFor(rows[j], other) <==> ActiveFor(after[j], other));
    }
  }

  lemma SyncOneShape(rows: seq<Row>, flushed: nat, agent: string, hash: string)
    requires flushed <= |rows|
    ensures var after := SyncOne(rows, flushed, agent, hash);
            && Extends(after, rows) && |after| <= |rows| + 1
            && (forall i :: 0 <= i < |rows| ==>
                 after[i] == rows[i] || (rows[i].agent == agent && after[i].agent == agent))
            && (forall i :: |rows| <= i < |after| ==> after[i].agent == agent)
            && (StatusMatchesFlag(rows) ==> StatusMatchesFlag(after))
  {
  }

  lemma SyncOneVersions(rows: seq<Row>, flushed: nat, agent: string, hash: string)
    requires flushed <= |rows| && Invariant(rows) && NothingPending(rows, flushed, agent)
    ensures VersionsDistinct(SyncOne(rows, flushed, agent, hash))
  {
    SyncOneShape(rows, flushed, agent, hash);
    PendingHidesNothing(rows, flushed, agent);
    assert AgentOk(rows, agent);
    var after := SyncOne(rows, flushed, agent, hash);
    if |after| > |rows| {
      forall i | 0 <= i < |rows| && rows[i].agent == agent ensures after[i].version != after[|rows|].version {
        assert rows[i].version != NextVersion(rows[..flushed], agent);
      }
    }
  }

  lemma SyncOneActive(rows: seq<Row>, flushed: nat, agent: string, hash: string) returns (i: nat)
    requires flushed <= |rows| && Invariant(rows) && NothingPending(rows, flushed, agent)
    ensures var after := SyncOne(rows, flushed, agent, hash); SoleActive(after, agent, i) && after[i].hash == hash
  {
    PendingHidesNothing(rows, flushed, agent);
    assert AgentOk(rows, agent);
    var after := SyncOne(rows, flushed, agent, hash);
    i := if |after| > |rows| then |rows| else FindActive(rows[..flushed], agent).value;
  }

  lemma SyncOneKeepsInvariant(rows: seq<Row>, flushed: nat, agent: string, hash: string)
    requires flushed <= |rows| && Invariant(rows) && NothingPending(rows, flushed, agent)
    ensures Invariant(SyncOne(rows, flushed, agent, hash))
  {
    var after := SyncOne(rows, flushed, agent, hash);
    SyncOneShape(rows, flushed, agent, hash);
    SyncOneVersions(rows, flushed, agent, hash);
    var k := SyncOneActive(rows, flushed, agent, hash);
    forall a ensures AgentOk(after, a) {
      if a != agent {
        assert AgentOk(rows, a);
        OtherAgentUntouched(rows, after, agent, a);
      }
    }
  }

  lemma AgentsDiffer()
    ensures Distinct(AGENTS)
  {
  }

  ghost predicate ActiveHash(rows: seq<Row>, agent: string, hash: string) {
    exists i :: SoleActive(rows, agent, i) && rows[i].hash == hash
  }

  /** A sync that has dealt with the first `k` agents. */
  ghost predicate SyncedUpTo(before: seq<Row>, after: seq<Row>, files: map<string, string>, k: nat)
    requires FilesReadable(files) && k <= |AGENTS|
  {
    && Invariant(after) && Extends(after, before)
    && (forall i :: k <= i < |AGENTS| ==> NothingPending(after, |before|, AGENTS[i]))
    && (forall i :: 0 <= i < k ==> ActiveHash(after, AGENTS[i], files[AGENTS[i]]))
  }

  lemma OtherActiveHash(rows: seq<Row>, flushed: nat, agent: string, hash: string, other: string, otherHash: string)
    requires flushed <= |rows| && Invariant(rows) && NothingPending(rows, flushed, agent)
    requires other != agent && ActiveHash(rows, other, otherHash)
    ensures ActiveHash(SyncOne(rows, flushed, agent, hash), other, otherHash)
  {
    SyncOneShape(rows, flushed, agent, hash);
    var after := SyncOne(rows, flushed, agent, hash);
    OtherAgentUntouched(rows, after, agent, other);
    var i :| SoleActive(rows, other, i) && rows[i].hash == otherHash;
    assert SoleActive(after, other, i) && after[i] == rows[i];
  }

  lemma SyncOneAdvances(before: seq<Row>, rows: seq<Row>, files: map<string, string>, k: nat)
    requires FilesReadable(files) && k < |AGENTS| && |before| <= |rows| && SyncedUpTo(before, rows, files, k)
    ensures SyncedUpTo(before, SyncOne(rows, |before|, AGENTS[k], files[AGENTS[k]]), files, k + 1)
  {
    var agent, hash := AGENTS[k], files[AGENTS[k]];
    var after := SyncOne(rows, |before|, agent, hash);
    AgentsDiffer();
    SyncOneShape(rows, |before|, agent, hash);
    SyncOneKeepsInvariant(rows, |before|, agent, hash);
    var own := SyncOneActive(rows, |before|, agent, hash);
    forall i | 0 <= i < k + 1 ensures ActiveHash(after, AGENTS[i], files[AGENTS[i]]) {
      if i < k {
        OtherActiveHash(rows, |before|, agent, hash, AGENTS[i], files[AGENTS[i]]);
      }
    }
  }

  lemma {:induction false} SyncKeepsInvariant(rows: seq<Row>, files: map<string, string>, k: nat)
    requires FilesReadable(files) && k <= |AGENTS| && Invariant(rows)
    ensures SyncedUpTo(rows, SyncUpTo(rows, files, k), files, k)
  {
    if k > 0 {
      SyncKeepsInvariant(rows, files, k - 1);
      SyncOneAdvances(rows, SyncUpTo(rows, files, k - 1), files, k - 1);
    }
  }

  lemma SyncOneIdle(rows: seq<Row>, agent: string, hash: string)
    requires ActiveHash(rows, agent, hash)
    ensures SyncOne(rows, |rows|, agent, hash) == rows
  {
    assert rows[..|rows|] == rows;
    var i :| SoleActive(rows, agent, i) && rows[i].hash == hash;
  }

  /** A sync with the files of the active versions changes nothing. */
  lemma {:induction false} SyncIsIdempotent(rows: seq<Row>, files: map<string, string>, k: nat)
    requires FilesReadable(files) && k <= |AGENTS|
    requires forall i :: 0 <= i < |AGENTS| ==> ActiveHash(rows, AGENTS[i], files[AGENTS[i]])
    ensures SyncUpTo(rows, files, k) == rows
  {
    if k > 0 {
      SyncIsIdempotent(rows, files, k - 1);
      SyncOneIdle(rows, AGENTS[k - 1], files[AGENTS[k - 1]]);
    }
  }

  lemma ActivateKeepsInvariant(rows: seq<Row>, agent: string, target: nat)
    requires Invariant(rows) && target < |rows| && rows[target].agent == agent
    ensures Invariant(Activated(rows, agent, target)) && Extends(Activated(rows, agent, target), rows)
  {
    var after := Activated(rows, agent, target);
    forall a ensures AgentOk(after, a) {
      assert AgentOk(rows, a);
      if a == agent {
        assert SoleActive(after, agent, target);
      } else {
        OtherAgentUntouched(rows, after, agent, a);
      }
    }
  }

  ghost function After(run: seq<Call>): seq<Row> {
    if run == [] then [] else Step(After(Front(run)), Last(run))
  }

  /** In every run from the empty registry: status and flag agree, an agent's version strings are
      all different, and an agent with any row has exactly one active one. */
  lemma {:induction false} RunInvariant(run: seq<Call>)
    ensures Invariant(After(run))
    ensures run != [] ==> Extends(After(run), After(Front(run)))
  {
    if run != [] {
      RunInvariant(Front(run));
      var rows := After(Front(run));
      match Last(run) {
        case SyncCall(files) =>
          if FilesReadable(files) {
            SyncKeepsInvariant(rows, files, |AGENTS|);
          }
        case ActivateCall(agent, version) =>
          var found := FindVersion(rows, agent, version);
          if found.Some? {
            ActivateKeepsInvariant(rows, agent, found.value);
          }
      }
    }
  }

  /** Whatever happens later, a version of an agent keeps naming the same row with the same hash,
      and no later row carries it again. */
  lemma {:induction false} VersionsNeverReused(run: seq<Call>, more: seq<Call>)
    ensures Extends(After(run + more), After(run)) && VersionsDistinct(After(run + more))
  {
    RunInvariant(run + more);
    if more == [] {
      assert run + more == run;
    } else {
      VersionsNeverReused(run, Front(more));
      assert Front(run + more) == run + Front(more);
    }
  }

  /** After a sync that could read the files, every known agent has exactly one active version and
      its hash is the file's; and it has exactly one for ever after. */
  lemma SyncActivatesFiles(run: seq<Call>, files: map<string, string>, more: seq<Call>, agent: string)
    requires FilesReadable(files) && agent in AGENTS
    ensures ActiveHash(After(run + [SyncCall(files)]), agent, files[agent])
    ensures exists i :: SoleActive(After(run + [SyncCall(files)] + more), agent, i)
  {
    var synced := run + [SyncCall(files)];
    assert Front(synced) == run;
    RunInvariant(run);
    SyncKeepsInvariant(After(run), files, |AGENTS|);
    var k :| 0 <= k < |AGENTS| && AGENTS[k] == agent;
    assert ActiveHash(After(synced), agent, files[agent]);
    var i :| SoleActive(After(synced), agent, i);
    VersionsNeverReused(synced, more);
    RunInvariant(synced + more);
    assert After(synced + more)[i].agent == agent;
    assert AgentOk(After(synced + more), agent);
  }

  /** The branch that adds `v1.0` runs only for an agent without rows. */
  lemma FirstVersionOnlyOnce(run: seq<Call>, agent: string)
    ensures FindActive(After(run), agent).None? <==> !HasRows(After(run), agent)
  {
    RunInvariant(run);
    assert AgentOk(After(run), agent);
  }

  /** Activating a version that exists makes it the only active one of its agent and touches no
      other agent. */
  lemma ActivationIsExclusive(run: seq<Call>, agent: string, version: string)
    requires FindVersion(After(run), agent, version).Some?
    ensures var rows := After(run);
            var after := Step(rows, ActivateCall(agent, version));
            && SoleActive(after, agent, FindVersion(rows, agent, version).value)
            && forall i :: 0 <= i < |rows| && rows[i].agent != agent ==> after[i] == rows[i]
  {
  }
}
