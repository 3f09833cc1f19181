/** The HTTP client's single-flight token refresh: a request answered with 401 waits for one shared
    refresh and is sent once more. Everything asynchronous arrives as an event, in any order. */
module TokenRefresh {
  import opened Common

  datatype Kind = Normal | LoginCall | RefreshCall
  datatype Answer = Success | Unauthorized | OtherFailure

  /** `Waiting` is the handler suspended at its `await`. */
  datatype Phase = InFlight | Waiting | Settled(fulfilled: bool)

  /** `sharedRefresh` is the refresh the request waited for, `outcome` what it saw of it. */
  datatype Request = Request(kind: Kind, phase: Phase, retry: bool, sends: nat,
                             sharedRefresh: Option<nat>, outcome: Option<bool>)

  /** The refreshes the interceptor started, with their outcome once settled; `refreshPromise`
      names the one in flight. */
  datatype State = State(jwtMode: bool, hasRefreshToken: bool, refreshPromise: Option<nat>,
                         refreshes: seq<Option<bool>>, requests: seq<Request>)

  datatype Event =
    | Send(kind: Kind)
    | Respond(id: nat, answer: Answer)
    | RefreshSettled(gotToken: bool)
    | Resume(id: nat)
    | TokensChanged(hasRefreshToken: bool)

  predicate CanRetry(s: State, r: Request) {
    r.kind == Normal && !r.retry && s.hasRefreshToken
  }

  /** The end of the interceptor: a 401 outside login ends the session in JWT mode. */
  function Rejected(s: State, id: nat, unauthorized: bool): State
    requires id < |s.requests|
  {
    var r := s.requests[id];
    s.(requests := s.requests[id := r.(phase := Settled(false))],
       hasRefreshToken := s.hasRefreshToken && !(unauthorized && s.jwtMode && r.kind != LoginCall))
  }

  predicate Enabled(s: State, e: Event) {
    match e
    case Send(_) => true
    case TokensChanged(_) => true
    case Respond(id, _) => id < |s.requests| && s.requests[id].phase == InFlight
    case RefreshSettled(_) => s.refreshPromise.Some? && s.refreshPromise.value < |s.refreshes|
    case Resume(id) =>
      && id < |s.requests| && s.requests[id].phase == Waiting && s.requests[id].sharedRefresh.Some?
      && s.requests[id].sharedRefresh.value < |s.refreshes|
      && s.refreshes[s.requests[id].sharedRefresh.value].Some?
  }

  function Step(s: State, e: Event): State
    requires Enabled(s, e)
  {
    match e
    case Send(kind) => s.(requests := s.requests + [Request(kind, InFlight, false, 1, None, None)])
    case TokensChanged(has) => s.(hasRefreshToken := has)
    case Respond(id, answer) =>
      var r := s.requests[id];
      if answer == Success then s.(requests := s.requests[id := r.(phase := Settled(true))])
      else if answer == Unauthorized && CanRetry(s, r) then
        var shared := if s.refreshPromise.Some? then s.refreshPromise.value else |s.refreshes|;
        s.(requests := s.requests[id := r.(phase := Waiting, retry := true, sharedRefresh := Some(shared))],
           refreshPromise := Some(shared),
           refreshes := if s.refreshPromise.Some? then s.refreshes else s.refreshes + [None])
      else Rejected(s, id, answer == Unauthorized)
    case RefreshSettled(gotToken) =>
      s.(refreshes := s.refreshes[s.refreshPromise.value := Some(gotToken)], refreshPromise := None,
         hasRefreshToken := gotToken)
    case Resume(id) =>
      var r := s.requests[id];
      var gotToken := s.refreshes[r.sharedRefresh.value].value;
      if gotToken then
        s.(requests := s.requests[id := r.(phase := InFlight, sends := r.sends + 1, outcome := Some(true))])
      else
        Rejected(s.(requests := s.requests[id := r.(outcome := Some(false))]), id, true)
  }

  /** The client with its module variables. */
  class HttpClient {
    const jwtMode: bool
    var hasRefreshToken: bool
    var refreshPromise: Option<nat>
    var refreshes: seq<Option<bool>>
    var requests: seq<Request>

    ghost function Abstract(): State
      reads this
    {
      State(jwtMode, hasRefreshToken, refreshPromise, refreshes, requests)
    }

    constructor (jwtMode: bool, hasRefreshToken: bool)
      ensures Abstract() == State(jwtMode, hasRefreshToken, None, [], [])
    {
      this.jwtMode, this.hasRefreshToken := jwtMode, hasRefreshToken;
      refreshPromise, refreshes, requests := None, [], [];
    }

    method SendRequest(kind: Kind) returns (id: nat)
      modifies this
      ensures Abstract() == Step(old(Abstract()), Send(kind)) && id == |old(requests)|
    {
      id := |requests|;
      requests := requests + [Request(kind, InFlight, false, 1, None, None)];
    }

    /** The response interceptor up to its `await`, or to its end. */
    method OnResponse(id: nat, answer: Answer)
      requires Enabled(Abstract(), Respond(id, answer))
      modifies this
      ensures Abstract() == Step(old(Abstract()), Respond(id, answer))
    {
      if answer == Success {
        requests := requests[id := requests[id].(phase := Settled(true))];
        return;
      }
      if answer == Unauthorized && !requests[id].retry && requests[id].kind == Normal && hasRefreshToken {
        requests := requests[id := requests[id].(retry := true)];
        if refreshPromise.None? {
          refreshPromise := Some(|refreshes|);
          refreshes := refreshes + [None];
        }
        requests := requests[id := requests[id].(phase := Waiting, sharedRefresh := refreshPromise)];
        return;
      }
      Reject(id, answer == Unauthorized);
    }

    /** `refreshAccessToken` with its `finally`. */
    method OnRefreshSettled(gotToken: bool)
      requires Enabled(Abstract(), RefreshSettled(gotToken))
      modifies this
      ensures Abstract() == Step(old(Abstract()), RefreshSettled(gotToken))
    {
      hasRefreshToken := gotToken;
      refreshes := refreshes[refreshPromise.value := Some(gotToken)];
      refreshPromise := None;
    }

    /** The response interceptor after its `await`. */
    method OnResume(id: nat)
      requires Enabled(Abstract(), Resume(id))
      modifies this
      ensures Abstract() == Step(old(Abstract()), Resume(id))
    {
      var nextToken := refreshes[requests[id].sharedRefresh.value];
      requests := requests[id := requests[id].(outcome := nextToken)];
      if nextToken == Some(true) {
        requests := requests[id := requests[id].(phase := InFlight, sends := requests[id].sends + 1)];
        return;
      }
      Reject(id, true);
    }

    method Reject(id: nat, unauthorized: bool)
      requires id < |requests|
      modifies this`requests, this`hasRefreshToken
      ensures Abstract() == Rejected(old(Abstract()), id, unauthorized)
    {
      if unauthorized && jwtMode && requests[id].kind != LoginCall {
        hasRefreshToken := false;
      }
      requests := requests[id := requests[id].(phase := Settled(false))];
    }
  }

  // ----- safety over every run

  predicate RequestOk(s: State, r: Request) {
    && (r.retry <==> r.sharedRefresh.Some?)
    && (r.kind != Normal ==> !r.retry)
    && (r.sharedRefresh.Some? ==> r.sharedRefresh.value < |s.refreshes|)
    && (r.outcome.Some? ==> r.sharedRefresh.Some? && s.refreshes[r.sharedRefresh.value] == r.outcome)
    && (r.phase == Waiting ==> r.retry && r.outcome.None?)
    && (r.phase == InFlight && r.retry ==> r.outcome == Some(true))
    && r.sends == if r.outcome == Some(true) then 2 else 1
  }

  ghost predicate RefreshesOk(s: State) {
    && (s.refreshPromise.Some? ==> s.refreshPromise.value < |s.refreshes|)
    && (forall k :: 0 <= k < |s.refreshes| ==> (s.refreshes[k].None? <==> s.refreshPromise == Some(k)))
  }

  ghost predicate Invariant(s: State) {
    RefreshesOk(s) && forall i :: 0 <= i < |s.requests| ==> RequestOk(s, s.requests[i])
  }

  lemma StepKeepsRefreshes(s: State, e: Event)
    requires RefreshesOk(s) && Enabled(s, e)
    ensures RefreshesOk(Step(s, e))
    ensures |s.refreshes| <= |Step(s, e).refreshes|
    ensures forall k :: 0 <= k < |s.refreshes| && s.refreshes[k].Some? ==> Step(s, e).refreshes[k] == s.refreshes[k]
  {
  }

  /** Settled refreshes do not change, so what a request saw stays true. */
  lemma OkInLaterState(s: State, after: State, r: Request)
    requires RequestOk(s, r) && |s.refreshes| <= |after.refreshes|
    requires forall k :: 0 <= k < |s.refreshes| && s.refreshes[k].Some? ==> after.refreshes[k] == s.refreshes[k]
    ensures RequestOk(after, r)
  {
  }

  /** The event advances its request and no other. */
  ghost predicate Advances(s: State, after: State, id: nat) {
    && id < |s.requests| && |after.requests| == |s.requests|
    && after.requests == s.requests[id := after.requests[id]]
    && RequestOk(after, after.requests[id])
    && Rank(after.requests[id]) < Rank(s.requests[id])
  }

  lemma RespondAdvances(s: State, id: nat, answer: Answer)
    requires Invariant(s) && Enabled(s, Respond(id, answer))
    ensures Advances(s, Step(s, Respond(id, answer)), id)
  {
    assert RequestOk(s, s.requests[id]);
    StepKeepsRefreshes(s, Respond(id, answer));
  }

  lemma ResumeAdvances(s: State, id: nat)
    requires Invariant(s) && Enabled(s, Resume(id))
    ensures Advances(s, Step(s, Resume(id)), id)
  {
    assert RequestOk(s, s.requests[id]);
  }

  lemma TouchedRequestOk(s: State, e: Event)
    requires Invariant(s) && Enabled(s, e) && (e.Respond? || e.Resume?)
    ensures Advances(s, Step(s, e), e.id)
  {
    if e.Respond? {
      RespondAdvances(s, e.id, e.answer);
    } else {
      ResumeAdvances(s, e.id);
    }
  }

  lemma {:induction false} StepKeepsInvariant(s: State, e: Event)
    requires Invariant(s) && Enabled(s, e)
    ensures Invariant(Step(s, e))
  {
    StepKeepsRefreshes(s, e);
    var after := Step(s, e);
    forall i | 0 <= i < |after.requests| ensures RequestOk(after, after.requests[i]) {
      if e.Respond? || e.Resume? {
        TouchedRequestOk(s, e);
      }
      if i < |s.requests| {
        OkInLaterState(s, after, s.requests[i]);
      }
    }
  }

  /** The run consists of events that could happen when they did. */
  ghost predicate Possible(start: State, run: seq<Event>)
    decreases |run|, 0
  {
    run == [] || (Possible(start, Front(run)) && Enabled(After(start, Front(run)), Last(run)))
  }

  ghost function After(start: State, run: seq<Event>): State
    requires Possible(start, run)
    decreases |run|, 1
  {
    if run == [] then start else Step(After(start, Front(run)), Last(run))
  }

  lemma {:induction false} RunKeepsInvariant(start: State, run: seq<Event>)
    requires Invariant(start) && Possible(start, run)
    ensures Invariant(After(start, run))
  {
    if run != [] {
      RunKeepsInvariant(start, Front(run));
      StepKeepsInvariant(After(start, Front(run)), Last(run));
    }
  }

  predicate Initial(s: State) {
    s.refreshPromise == None && s.refreshes == [] && s.requests == []
  }

  /** In every run: at most one shared refresh is in flight, a request is sent at most twice, and
      twice only if it is an ordinary one whose shared refresh brought a token; and all requests
      that waited for one refresh saw the same outcome. */
  lemma SingleFlight(start: State, run: seq<Event>)
    requires Initial(start) && Possible(start, run)
    ensures var s := After(start, run);
            && (forall j, k :: 0 <= j < |s.refreshes| && 0 <= k < |s.refreshes|
                               && s.refreshes[j].None? && s.refreshes[k].None?
                  ==> j == k)
            && (forall i :: 0 <= i < |s.requests| ==> 1 <= s.requests[i].sends <= 2)
            && (forall i :: 0 <= i < |s.requests| && s.requests[i].sends == 2 ==>
                  && s.requests[i].kind == Normal && s.requests[i].sharedRefresh.Some?
                  && s.requests[i].sharedRefresh.value < |s.refreshes|
                  && s.refreshes[s.requests[i].sharedRefresh.value] == Some(true))
            && (forall i, j :: 0 <= i < |s.requests| && 0 <= j < |s.requests|
                               && s.requests[i].outcome.Some? && s.requests[j].outcome.Some?
                               && s.requests[i].sharedRefresh == s.requests[j].sharedRefresh
                  ==> s.requests[i].outcome == s.requests[j].outcome)
  {
    RunKeepsInvariant(start, run);
    var s := After(start, run);
    forall i, j | 0 <= i < |s.requests| && 0 <= j < |s.requests|
                  && s.requests[i].outcome.Some? && s.requests[j].outcome.Some?
                  && s.requests[i].sharedRefresh == s.requests[j].sharedRefresh
      ensures s.requests[i].outcome == s.requests[j].outcome
    {
      assert RequestOk(s, s.requests[i]) && RequestOk(s, s.requests[j]);
    }
    forall i | 0 <= i < |s.requests|
      ensures 1 <= s.requests[i].sends <= 2
      ensures s.requests[i].sends == 2 ==>
                && s.requests[i].kind == Normal && s.requests[i].sharedRefresh.Some?
                && s.requests[i].sharedRefresh.value < |s.refreshes|
                && s.refreshes[s.requests[i].sharedRefresh.value] == Some(true)
    {
      assert RequestOk(s, s.requests[i]);
    }
  }

  // ----- every request settles

  /** How far a request is from being settled. */
  function Rank(r: Request): nat {
    match r.phase
    case Settled(_) => 0
    case InFlight => if r.retry then 1 else 3
    case Waiting => 2
  }

  function Total(requests: seq<Request>): nat {
    if requests == [] then 0 else Total(Front(requests)) + Rank(Last(requests))
  }

  lemma {:induction false} TotalUpdate(requests: seq<Request>, i: nat, r: Request)
    requires i < |requests|
    ensures Total(requests[i := r]) == Total(requests) - Rank(requests[i]) + Rank(r)
  {
    var after := requests[i := r];
    if i == |requests| - 1 {
      assert Front(after) == Front(requests);
    } else {
      TotalUpdate(Front(requests), i, r);
      assert Front(after) == Front(requests)[i := r];
    }
  }

  function Measure(s: State): nat {
    2 * Total(s.requests) + if s.refreshPromise.Some? then 1 else 0
  }

  predicate IsProgress(e: Event) {
    e.Respond? || e.RefreshSettled? || e.Resume?
  }

  lemma ProgressDecreases(s: State, e: Event)
    requires Invariant(s) && Enabled(s, e) && IsProgress(e)
    ensures Measure(Step(s, e)) < Measure(s)
  {
    if !e.RefreshSettled? {
      TouchedRequestOk(s, e);
      TotalUpdate(s.requests, e.id, Step(s, e).requests[e.id]);
    }
  }

  /** Between new requests and token changes at most `Measure` events can happen. */
  lemma {:induction false} ProgressIsBounded(start: State, run: seq<Event>)
    requires Invariant(start) && Possible(start, run)
    requires forall e :: e in run ==> IsProgress(e)
    ensures |run| + Measure(After(start, run)) <= Measure(start)
  {
    if run != [] {
      ProgressIsBounded(start, Front(run));
      RunKeepsInvariant(start, Front(run));
      ProgressDecreases(After(start, Front(run)), Last(run));
    }
  }

  ghost predicate Quiet(s: State) {
    forall e :: IsProgress(e) ==> !Enabled(s, e)
  }

  /** Nothing can happen any more exactly when every request is settled and no refresh is in flight:
      no waiter is ever forgotten. */
  lemma QuietMeansSettled(s: State)
    requires Invariant(s)
    ensures Quiet(s) <==> s.refreshPromise.None? && forall i :: 0 <= i < |s.requests| ==> s.requests[i].phase.Settled?
  {
    if Quiet(s) {
      assert s.refreshPromise.Some? ==> Enabled(s, RefreshSettled(true));
      forall i | 0 <= i < |s.requests| ensures s.requests[i].phase.Settled? {
        assert RequestOk(s, s.requests[i]);
        assert !Enabled(s, Respond(i, Success)) && !Enabled(s, Resume(i));
      }
    }
  }

  /** From any state a run reaches, the outstanding events settle every request. */
  lemma {:induction false} CanSettle(s: State) returns (run: seq<Event>)
    requires Invariant(s)
    ensures Possible(s, run) && (forall e :: e in run ==> IsProgress(e)) && Quiet(After(s, run))
    decreases Measure(s)
  {
    if Quiet(s) {
      run := [];
    } else {
      var e :| IsProgress(e) && Enabled(s, e);
      StepKeepsInvariant(s, e);
      ProgressDecreases(s, e);
      var rest := CanSettle(Step(s, e));
      run := [e] + rest;
      PrependEvent(s, e, rest);
    }
  }

  lemma {:induction false} PrependEvent(s: State, e: Event, rest: seq<Event>)
    requires Enabled(s, e) && Possible(Step(s, e), rest)
    ensures Possible(s, [e] + rest) && After(s, [e] + rest) == After(Step(s, e), rest)
  {
    if rest == [] {
      assert [e] + rest == [e] && Front([e]) == [];
    } else {
      PrependEvent(s, e, Front(rest));
      assert Front([e] + rest) == [e] + Front(rest);
    }
  }

  /** Every maximal run of the outstanding events is finite and leaves every request settled. */
  lemma EveryRequestSettles(start: State, run: seq<Event>, more: seq<Event>)
    requires Initial(start) && Possible(start, run) && Possible(After(start, run), more)
    requires forall e :: e in more ==> IsProgress(e)
    ensures var s, end := After(start, run), After(After(start, run), more);
            && |more| <= Measure(s)
            && (Quiet(end) ==> forall i :: 0 <= i < |end.requests| ==> end.requests[i].phase.Settled?)
            && (!Quiet(end) ==> |more| < Measure(s))
  {
    RunKeepsInvariant(start, run);
    var s := After(start, run);
    ProgressIsBounded(s, more);
    RunKeepsInvariant(s, more);
    var end := After(s, more);
    QuietMeansSettled(end);
    if !Quiet(end) {
      var e :| IsProgress(e) && Enabled(end, e);
      ProgressDecreases(end, e);
    }
  }
}
