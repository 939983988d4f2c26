/** Single flight: at most one refresh at a time, and none while a stored token is valid. */
module TokenSafety {
  import opened Common
  import opened TokenModel

  predicate InRequest(s: State, t: nat) {
    PcOf(s, t).Requesting? || PcOf(s, t).Responded?
  }

  /** The flag is set exactly while one thread is in the request section. */
  ghost predicate SingleFlight(s: State) {
    && (forall t, u | InRequest(s, t) && InRequest(s, u) :: t == u)
    && (s.refreshing <==> exists t :: InRequest(s, t))
  }

  /** A thread waiting without a notification waits for a running refresh. */
  ghost predicate WaitsForRefresh(s: State) {
    forall t | PcOf(s, t).Waiting? && !PcOf(s, t).notified :: s.refreshing
  }

  /** `stored` is the expiry of the cached token. */
  ghost predicate CacheOk(s: State) {
    s.stored == s.expiresAt && (s.accessToken.Some? <==> s.expiresAt.Some?)
  }

  /** No refresh started while a stored, uncleared token had its lifetime left. */
  ghost predicate StartsOk(starts: seq<Start>) {
    forall i | 0 <= i < |starts| && starts[i].stored.Some? :: starts[i].stored.value <= starts[i].at + 300
  }

  /** Cached tokens were valid when returned; only a full wait times out. */
  ghost predicate OutcomesOk(outcomes: seq<Outcome>) {
    forall i | 0 <= i < |outcomes| ::
      && (outcomes[i].Cached? ==> outcomes[i].expiresAt > outcomes[i].at + 300)
      && (outcomes[i].TimedOut? ==> outcomes[i].since + 30 <= outcomes[i].at)
  }

  ghost predicate Safe(s: State) {
    SingleFlight(s) && WaitsForRefresh(s) && CacheOk(s) && StartsOk(s.starts) && OutcomesOk(s.outcomes)
  }

  /** A step of one thread that stays outside the request section. */
  lemma OutsideStep(s: State, s': State, t: nat)
    requires SingleFlight(s) && !InRequest(s, t) && !InRequest(s', t) && s'.refreshing == s.refreshing
    requires forall u | u != t :: PcOf(s', u) == PcOf(s, u)
    ensures SingleFlight(s')
  {
    forall u ensures InRequest(s', u) == InRequest(s, u) {
      if u != t { assert PcOf(s', u) == PcOf(s, u); }
    }
    SameRequests(s, s');
  }

  lemma SameRequests(s: State, s': State)
    requires SingleFlight(s) && s'.refreshing == s.refreshing
    requires forall u :: InRequest(s', u) == InRequest(s, u)
    ensures SingleFlight(s')
  {
    hide InRequest;
    if s.refreshing {
      var u :| InRequest(s, u);
      assert InRequest(s', u);
    }
    forall t, u | InRequest(s', t) && InRequest(s', u) ensures t == u { assert InRequest(s, t) && InRequest(s, u); }
    forall u | InRequest(s', u) ensures s'.refreshing { assert InRequest(s, u); }
  }

  lemma EnterRequest(s: State, t: nat)
    requires SingleFlight(s) && !s.refreshing
    ensures SingleFlight(StartRefresh(s, t))
  {
    var s' := StartRefresh(s, t);
    assert InRequest(s', t);
    forall u | InRequest(s', u) ensures u == t {
      if u != t { assert InRequest(s, u); }
    }
  }

  lemma RespondFlight(s: State, t: nat, response: Response)
    requires SingleFlight(s) && StepRespond(s, t, response).Some?
    ensures SingleFlight(StepRespond(s, t, response).value)
  {
    var s' := StepRespond(s, t, response).value;
    assert InRequest(s, t) && InRequest(s', t);
    forall u | InRequest(s', u) ensures u == t {
      if u != t { assert InRequest(s, u); }
    }
  }

  lemma FinishFlight(s: State, t: nat)
    requires SingleFlight(s) && StepFinish(s, t).Some?
    ensures SingleFlight(StepFinish(s, t).value)
  {
    var s' := StepFinish(s, t).value;
    assert InRequest(s, t);
    forall u ensures !InRequest(s', u) {
      if u != t { assert InRequest(s, u) ==> u == t; }
    }
  }

  lemma FlightStep(s: State, e: Event)
    requires SingleFlight(s) && Step(s, e).Some?
    ensures SingleFlight(Step(s, e).value)
  {
    hide SingleFlight;
    var s' := Step(s, e).value;
    if e.Finish? {
      FinishFlight(s, e.thread);
    } else if e.Respond? {
      RespondFlight(s, e.thread, e.response);
    } else if e.Tick? || e.Clear? {
      SameFlight(s, s');
    } else if PcOf(s', e.thread).Requesting? {
      EnterRequest(s, e.thread);
    } else {
      OutsideStep(s, s', e.thread);
    }
  }

  lemma SameFlight(s: State, s': State)
    requires SingleFlight(s) && s'.pcs == s.pcs && s'.refreshing == s.refreshing
    ensures SingleFlight(s')
  {
    forall u ensures InRequest(s', u) == InRequest(s, u) {}
    SameRequests(s, s');
  }

  lemma WaitStep(s: State, e: Event)
    requires WaitsForRefresh(s) && Step(s, e).Some?
    ensures WaitsForRefresh(Step(s, e).value)
  {
    var s' := Step(s, e).value;
    forall t | PcOf(s', t).Waiting? && !PcOf(s', t).notified ensures s'.refreshing {
      if PcOf(s, t).Waiting? && !PcOf(s, t).notified { assert s.refreshing; }
    }
  }

  lemma BooksStep(s: State, e: Event)
    requires CacheOk(s) && StartsOk(s.starts) && OutcomesOk(s.outcomes) && Step(s, e).Some?
    ensures var s' := Step(s, e).value; CacheOk(s') && StartsOk(s'.starts) && OutcomesOk(s'.outcomes)
  {
    hide NotifyAll;
  }

  lemma {:induction false} RunSafe(s: State, events: seq<Event>)
    requires Safe(s) && Run(s, events).Some?
    ensures Safe(Run(s, events).value)
  {
    hide Step, SingleFlight, WaitsForRefresh, CacheOk, StartsOk, OutcomesOk;
    if |events| > 0 {
      var front, e := events[..|events| - 1], events[|events| - 1];
      RunSafe(s, front);
      FlightStep(Run(s, front).value, e);
      WaitStep(Run(s, front).value, e);
      BooksStep(Run(s, front).value, e);
    }
  }

  lemma AlwaysSafe(s: State)
    requires Reachable(s)
    ensures Safe(s)
  {
    hide Run;
    var now: int, events: seq<Event> :| Run(Init(now), events) == Some(s);
    RunSafe(Init(now), events);
  }

  /** The flag is true exactly when one thread, and no more, is refreshing. */
  lemma RefreshIsSingleFlight(s: State)
    requires Reachable(s)
    ensures s.refreshing <==> exists t :: InRequest(s, t)
    ensures forall t, u | InRequest(s, t) && InRequest(s, u) :: t == u
  {
    hide Reachable;
    AlwaysSafe(s);
  }

  /** A refresh never starts while the last stored and uncleared token is still valid. */
  lemma NoNeedlessRefresh(s: State, i: nat)
    requires Reachable(s) && i < |s.starts| && s.starts[i].stored.Some?
    ensures s.starts[i].stored.value <= s.starts[i].at + 300
  {
    hide Reachable;
    AlwaysSafe(s);
  }

  /** A token served from the cache had more than five minutes to live; only a wait of half a minute gives up. */
  lemma ServedAlive(s: State, i: nat)
    requires Reachable(s) && i < |s.outcomes|
    ensures s.outcomes[i].Cached? ==> s.outcomes[i].expiresAt > s.outcomes[i].at + 300
    ensures s.outcomes[i].TimedOut? ==> s.outcomes[i].at >= s.outcomes[i].since + 30
  {
    hide Reachable;
    AlwaysSafe(s);
  }

  /** A section of a call serves the cached token exactly when that has more than five minutes to live. */
  lemma ServedExactly(s: State, e: Event)
    requires (e.Fast? || e.Enter? || e.Wake?) && Step(s, e).Some?
    ensures var s' := Step(s, e).value;
            if s.accessToken.Some? && s.expiresAt.Some? && s.expiresAt.value > s.now + 300 then
              s'.outcomes == s.outcomes + [Cached(e.thread, s.accessToken.value, s.expiresAt.value, s.now)]
            else
              && (s'.outcomes == s.outcomes || (e.Wake? && |s'.outcomes| == |s.outcomes| + 1))
              && (forall k | |s.outcomes| <= k < |s'.outcomes| :: s'.outcomes[k].TimedOut?)
    ensures var s' := Step(s, e).value; |s'.outcomes| > |s.outcomes| ==> PcOf(s', e.thread).Idle?
  {}

  /**
   Without such a token a call goes on to the slow path; there it waits from now on while
   another thread refreshes, or refreshes itself; only a timeout while the refresh still
   runs gives up.
   */
  lemma MissedMeans(s: State, e: Event)
    requires (e.Fast? || e.Enter? || e.Wake?) && Step(s, e).Some?
    requires !(s.accessToken.Some? && s.expiresAt.Some? && s.expiresAt.value > s.now + 300)
    ensures var s', t := Step(s, e).value, e.thread;
            if e.Fast? then PcOf(s', t) == FastMissed && s'.outcomes == s.outcomes && s'.starts == s.starts
            else if !s.refreshing then
              && PcOf(s', t) == Requesting && s'.refreshing && s'.outcomes == s.outcomes
              && |s'.starts| == |s.starts| + 1 && s'.starts[|s.starts|].at == s.now && s'.starts[|s.starts|].thread == t
            else if e.Wake? && e.timedOut then
              && PcOf(s', t) == Idle && s'.refreshing && s'.starts == s.starts
              && s'.outcomes == s.outcomes + [TimedOut(t, PcOf(s, t).since, s.now)]
            else PcOf(s', t) == Waiting(s.now, false) && s'.outcomes == s.outcomes && s'.starts == s.starts
  {}

  /** A waiting call can give up exactly once it has waited half a minute unnotified. */
  lemma TimesOutExactly(s: State, t: nat)
    requires PcOf(s, t).Waiting?
    ensures Step(s, Wake(t, true)).Some? <==> !PcOf(s, t).notified && s.now - PcOf(s, t).since >= 30
    ensures Step(s, Wake(t, false)).Some?
  {}

  /** A refresh starts only in a section that just found no valid token. */
  lemma StartsWhenInvalid(s: State, e: Event)
    requires Step(s, e).Some? && |Step(s, e).value.starts| > |s.starts|
    ensures !(s.accessToken.Some? && s.expiresAt.Some? && s.expiresAt.value > s.now + 300)
    ensures !s.refreshing && (e.Enter? || e.Wake?)
    ensures InRequest(Step(s, e).value, e.thread)
  {}

  /** No wakeup is lost: a thread that was not notified still has a refresh to wait for. */
  lemma WaiterHasRefresher(s: State, t: nat)
    requires Reachable(s) && PcOf(s, t).Waiting? && !PcOf(s, t).notified
    ensures exists u :: u != t && InRequest(s, u)
  {
    hide Reachable;
    AlwaysSafe(s);
    var u :| InRequest(s, u);
    assert u != t;
  }

  /** However long others take, no thread is stuck: some step of it, or of the refresher it waits for, can run. */
  lemma NeverStuck(s: State, t: nat) returns (u: nat, e: Event)
    requires Reachable(s) && !PcOf(s, t).Idle?
    ensures Step(s, e).Some? && e != Clear && !e.Tick? && e.thread == u
    ensures u == t || InRequest(s, u)
    ensures PcOf(Step(s, e).value, u) != PcOf(s, u)
  {
    hide Reachable;
    AlwaysSafe(s);
    u := t;
    match PcOf(s, t)
    case FastMissed => e := Enter(t);
    case Requesting => e := Respond(t, Failed);
    case Responded(_) => e := Finish(t);
    case Waiting(_, notified) =>
      if notified {
        e := Wake(t, false);
      } else {
        WaiterHasRefresher(s, t);
        u :| u != t && InRequest(s, u);
        e := if PcOf(s, u).Requesting? then Respond(u, Failed) else Finish(u);
      }
  }
}
