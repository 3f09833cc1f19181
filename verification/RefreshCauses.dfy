/** Why the client refreshes, resends, fulfils and gives up: what each event of a run does to each
    request, and what a request's end says about the events before it. */
module RefreshCauses {
  import opened Common
  import opened TokenRefresh

  /** `e` is the last event of a run that leads from `s` to `after`. */
  ghost predicate Leads(s: State, e: Event, after: State) {
    Invariant(s) && Enabled(s, e) && after == Step(s, e)
  }

  lemma LastEventLeads(start: State, run: seq<Event>)
    requires Initial(start) && Possible(start, run) && run != []
    ensures Possible(start, Front(run)) && Leads(After(start, Front(run)), Last(run), After(start, run))
  {
    RunKeepsInvariant(start, Front(run));
  }

  // ----- refreshing

  /** An ordinary request that was not sent again yet is answered with 401 while a refresh token is stored. */
  ghost predicate AsksForRefresh(s: State, e: Event) {
    exists id :: 0 <= id < |s.requests| && e == Respond(id, Unauthorized) && s.requests[id].kind == Normal
                 && !s.requests[id].retry && s.hasRefreshToken
  }

  /** Such a request is marked and waits for the refresh in flight, or for a new one if there is none. */
  lemma UnauthorizedWaits(s: State, e: Event, after: State)
    requires Leads(s, e, after) && AsksForRefresh(s, e)
    ensures |after.requests| == |s.requests|
    ensures after.requests[e.id].phase == Waiting && after.requests[e.id].retry
    ensures after.requests[e.id].sharedRefresh == after.refreshPromise && after.refreshPromise.Some?
    ensures s.refreshPromise.Some? ==> after.refreshPromise == s.refreshPromise && after.refreshes == s.refreshes
    ensures s.refreshPromise.None? ==>
              after.refreshPromise == Some(|s.refreshes|) && after.refreshes == s.refreshes + [None]
    ensures after.hasRefreshToken
  {
  }

  /** No other event starts a refresh, or makes a request wait. */
  lemma OnlyUnauthorizedRefreshes(s: State, e: Event, after: State)
    requires Leads(s, e, after)
    ensures |after.refreshes| == |s.refreshes| + if AsksForRefresh(s, e) && s.refreshPromise.None? then 1 else 0
    ensures forall i :: 0 <= i < |after.requests| && after.requests[i].phase == Waiting ==>
              (i < |s.requests| && s.requests[i].phase == Waiting) || (AsksForRefresh(s, e) && e.id == i)
  {
    if e.Respond? && e.answer == Unauthorized && s.requests[e.id].kind == Normal && !s.requests[e.id].retry
       && s.hasRefreshToken {
      assert AsksForRefresh(s, e);
    }
  }

  /** The outcomes the run brought, in order. */
  function Outcomes(run: seq<Event>): seq<Option<bool>> {
    if run == [] then []
    else Outcomes(Front(run)) + if Last(run).RefreshSettled? then [Some(Last(run).gotToken)] else []
  }

  /** Refreshes settle in the order they were started, each with the outcome it brought. */
  lemma {:induction false} RefreshesAreOutcomes(start: State, run: seq<Event>)
    requires Initial(start) && Possible(start, run)
    ensures After(start, run).refreshes
         == Outcomes(run) + if After(start, run).refreshPromise.Some? then [None] else []
  {
    if run != [] {
      RefreshesAreOutcomes(start, Front(run));
      LastEventLeads(start, run);
      OutcomeStep(After(start, Front(run)), Last(run), Outcomes(Front(run)));
    }
  }

  lemma OutcomeStep(s: State, e: Event, outcomes: seq<Option<bool>>)
    requires Invariant(s) && Enabled(s, e)
    requires s.refreshes == outcomes + if s.refreshPromise.Some? then [None] else []
    ensures var later := outcomes + if e.RefreshSettled? then [Some(e.gotToken)] else [];
            Step(s, e).refreshes == later + if Step(s, e).refreshPromise.Some? then [None] else []
  {
    if e.RefreshSettled? {
      assert s.refreshes[s.refreshPromise.value].None?;
      assert s.refreshes[|s.refreshes| - 1].None?;
      assert s.refreshPromise.value == |outcomes|;
    }
  }

  // ----- what ends a request

  /** The refresh the request waited for is over and brought no token. */
  ghost predicate RefreshFailed(s: State, id: nat) {
    && id < |s.requests| && s.requests[id].sharedRefresh.Some?
    && s.requests[id].sharedRefresh.value < |s.refreshes|
    && s.refreshes[s.requests[id].sharedRefresh.value] == Some(false)
  }

  ghost predicate RefreshBroughtToken(s: State, id: nat) {
    && id < |s.requests| && s.requests[id].sharedRefresh.Some?
    && s.requests[id].sharedRefresh.value < |s.refreshes|
    && s.refreshes[s.requests[id].sharedRefresh.value] == Some(true)
  }

  /** A 401 that the client does not answer with a refresh: login or refresh call, no refresh token,
      or the second 401 of the request. */
  ghost predicate UnauthorizedForGood(s: State, e: Event, id: nat) {
    && id < |s.requests| && e == Respond(id, Unauthorized)
    && (s.requests[id].kind == LoginCall || s.requests[id].kind == RefreshCall
        || !s.hasRefreshToken || s.requests[id].retry)
  }

  ghost predicate GivesUp(s: State, e: Event, id: nat) {
    || e == Respond(id, OtherFailure)
    || UnauthorizedForGood(s, e, id)
    || (e == Resume(id) && RefreshFailed(s, id))
  }

  /** An unsettled request is fulfilled exactly by a success, given up exactly for one of the causes,
      and sent again exactly after its refresh brought a token; a settled one does not change. */
  lemma EndsAsAnswered(s: State, e: Event, after: State, id: nat)
    requires Leads(s, e, after) && id < |s.requests|
    ensures id < |after.requests|
    ensures s.requests[id].phase.Settled? ==> after.requests[id] == s.requests[id]
    ensures !s.requests[id].phase.Settled? ==>
              && (after.requests[id].phase == Settled(true) <==> e == Respond(id, Success))
              && (after.requests[id].phase == Settled(false) <==> GivesUp(s, e, id))
    ensures after.requests[id].sends == s.requests[id].sends
                                        + if e == Resume(id) && RefreshBroughtToken(s, id) then 1 else 0
    ensures e == Resume(id) && RefreshBroughtToken(s, id) ==> after.requests[id].phase == InFlight
    ensures after.requests[id].kind == s.requests[id].kind
  {
    assert RequestOk(s, s.requests[id]);
  }

  /** A request can be sent at any time; it is then in flight, sent once and not marked. No other
      event adds a request. */
  lemma NewRequest(s: State, e: Event, after: State)
    requires Invariant(s)
    ensures e.Send? ==> Enabled(s, e)
    ensures e.Send? && after == Step(s, e) ==>
              && |after.requests| == |s.requests| + 1 && Last(after.requests).kind == e.kind
              && Last(after.requests).phase == InFlight && Last(after.requests).sends == 1
              && !Last(after.requests).retry
    ensures !e.Send? && Enabled(s, e) && after == Step(s, e) ==> |after.requests| == |s.requests|
  {
  }

  /** The stored refresh token is what the page or a refresh last set, until a 401 that is given up
      ends the session: in JWT mode, and not for a login call. */
  ghost predicate EndsSession(s: State, e: Event) {
    s.jwtMode && exists id: nat ::
      id < |s.requests| && s.requests[id].kind != LoginCall
      && (UnauthorizedForGood(s, e, id) || (e == Resume(id) && RefreshFailed(s, id)))
  }

  lemma StoredToken(s: State, e: Event, after: State)
    requires Leads(s, e, after)
    ensures after.hasRefreshToken
         <==> if e.TokensChanged? then e.hasRefreshToken
              else if e.RefreshSettled? then e.gotToken
              else s.hasRefreshToken && !EndsSession(s, e)
    ensures after.jwtMode == s.jwtMode
  {
    if e.Respond? || e.Resume? {
      assert RequestOk(s, s.requests[e.id]);
      var r := s.requests[e.id];
      if UnauthorizedForGood(s, e, e.id) || (e.Resume? && RefreshFailed(s, e.id)) {
        assert s.jwtMode && r.kind != LoginCall ==> EndsSession(s, e);
      }
    }
  }

  // ----- over whole runs

  lemma {:induction false} PrefixPossible(start: State, run: seq<Event>, k: nat)
    requires Possible(start, run) && k <= |run|
    ensures Possible(start, run[..k])
  {
    if k == |run| {
      assert run[..k] == run;
    } else {
      PrefixPossible(start, Front(run), k);
      assert Front(run)[..k] == run[..k];
    }
  }

  /** In every run, the fulfilled requests are exactly those answered with success. */
  lemma {:induction false} FulfilledIffSuccess(start: State, run: seq<Event>, id: nat)
    requires Initial(start) && Possible(start, run)
    ensures (id < |After(start, run).requests| && After(start, run).requests[id].phase == Settled(true))
       <==> Respond(id, Success) in run
  {
    if run != [] {
      var s, e, after := After(start, Front(run)), Last(run), After(start, run);
      FulfilledIffSuccess(start, Front(run), id);
      LastEventLeads(start, run);
      NewRequest(s, e, after);
      assert run == Front(run) + [e];
      if id < |s.requests| {
        EndsAsAnswered(s, e, after, id);
      }
    }
  }

  /** In every run, a request that was given up has its cause at some event: another failure, a 401 to
      a login or refresh call, a 401 with no refresh token stored, a second 401, or its refresh that
      brought no token. */
  lemma {:induction false} GivenUpHasCause(start: State, run: seq<Event>, id: nat) returns (k: nat)
    requires Initial(start) && Possible(start, run)
    requires id < |After(start, run).requests| && After(start, run).requests[id].phase == Settled(false)
    ensures k < |run| && Possible(start, run[..k])
    ensures id < |After(start, run[..k]).requests| && GivesUp(After(start, run[..k]), run[k], id)
  {
    var s, e, after := After(start, Front(run)), Last(run), After(start, run);
    LastEventLeads(start, run);
    NewRequest(s, e, after);
    EndsAsAnswered(s, e, after, id);
    if s.requests[id].phase.Settled? {
      k := GivenUpHasCause(start, Front(run), id);
      assert Front(run)[..k] == run[..k];
    } else {
      k := |run| - 1;
      assert run[..k] == Front(run);
    }
  }

  /** In every run, a marked request was answered with 401 before, as an ordinary request with a
      refresh token stored. */
  lemma {:induction false} MarkedHasCause(start: State, run: seq<Event>, id: nat) returns (k: nat)
    requires Initial(start) && Possible(start, run)
    requires id < |After(start, run).requests| && After(start, run).requests[id].retry
    ensures k < |run| && Possible(start, run[..k])
    ensures run[k] == Respond(id, Unauthorized) && AsksForRefresh(After(start, run[..k]), run[k])
  {
    var s, e, after := After(start, Front(run)), Last(run), After(start, run);
    LastEventLeads(start, run);
    NewRequest(s, e, after);
    if id < |s.requests| && s.requests[id].retry {
      k := MarkedHasCause(start, Front(run), id);
      assert Front(run)[..k] == run[..k];
    } else {
      k := |run| - 1;
      assert run[..k] == Front(run);
      assert AsksForRefresh(s, e);
    }
  }
}
