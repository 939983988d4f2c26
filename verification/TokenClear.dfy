/** When clearing the cached token really forces a refresh. */
module TokenClear {
  import opened Common
  import opened TokenModel

  /** A thread that can still publish a token with its lifetime left, of a refresh it already started. */
  predicate MayPublish(s: State, t: nat) {
    || PcOf(s, t).Requesting?
    || (PcOf(s, t).Responded? && PcOf(s, t).response.Fresh? && PcOf(s, t).response.expiresAt > s.now + 300)
  }

  /** Some call finished since `n` outcomes was served from the cache. */
  ghost predicate ServedFromCache(s: State, n: nat) {
    exists k :: n <= k < |s.outcomes| && s.outcomes[k].Cached?
  }

  /** Without a refresh begun since, no call was served, and there is no valid token and nobody to bring one. */
  ghost predicate Barren(s: State, starts: nat, outcomes: nat) {
    && |s.starts| >= starts && |s.outcomes| >= outcomes
    && (|s.starts| == starts ==>
          && !ServedFromCache(s, outcomes) && !HasValidToken(s)
          && forall t :: !MayPublish(s, t))
  }

  lemma BarrenFinish(s: State, t: nat, starts: nat, outcomes: nat)
    requires Barren(s, starts, outcomes) && StepFinish(s, t).Some?
    ensures Barren(StepFinish(s, t).value, starts, outcomes)
  {
    var s' := StepFinish(s, t).value;
    if |s'.starts| == starts {
      assert !MayPublish(s, t);
      forall u ensures !MayPublish(s', u) { assert !MayPublish(s, u); }
    }
  }

  /** A step of one thread: it is served only a valid token, and publishes nothing it could not before. */
  lemma BarrenThread(s: State, s': State, t: nat, starts: nat, outcomes: nat)
    requires Barren(s, starts, outcomes) && |s'.starts| >= |s.starts|
    requires s'.now == s.now && s'.accessToken == s.accessToken && s'.expiresAt == s.expiresAt
    requires forall u | u != t :: PcOf(s', u) == PcOf(s, u)
    requires |s'.starts| == |s.starts| ==> MayPublish(s', t) ==> MayPublish(s, t)
    requires || s'.outcomes == s.outcomes
             || (&& |s'.outcomes| == |s.outcomes| + 1 && s.outcomes <= s'.outcomes
                 && (s'.outcomes[|s.outcomes|].Cached? ==> HasValidToken(s)))
    ensures Barren(s', starts, outcomes)
  {
    if |s'.starts| == starts {
      forall u ensures !MayPublish(s', u) { assert !MayPublish(s, u); }
    }
  }

  lemma BarrenClear(s: State, starts: nat, outcomes: nat)
    requires Barren(s, starts, outcomes)
    ensures Barren(Step(s, Clear).value, starts, outcomes)
  {
    var s' := Step(s, Clear).value;
    forall u ensures MayPublish(s', u) == MayPublish(s, u) {}
  }

  /** Time only takes lifetime away. */
  lemma BarrenTick(s: State, elapsed: nat, starts: nat, outcomes: nat)
    requires Barren(s, starts, outcomes)
    ensures Barren(Step(s, Tick(elapsed)).value, starts, outcomes)
  {
    var s' := Step(s, Tick(elapsed)).value;
    forall u ensures MayPublish(s', u) ==> MayPublish(s, u) {}
  }

  lemma BarrenStep(s: State, e: Event, starts: nat, outcomes: nat)
    requires Barren(s, starts, outcomes) && Step(s, e).Some?
    ensures Barren(Step(s, e).value, starts, outcomes)
  {
    hide Barren;
    if e.Finish? {
      BarrenFinish(s, e.thread, starts, outcomes);
    } else if e.Clear? {
      BarrenClear(s, starts, outcomes);
    } else if e.Tick? {
      BarrenTick(s, e.elapsed, starts, outcomes);
    } else {
      BarrenThread(s, Step(s, e).value, e.thread, starts, outcomes);
    }
  }

  lemma {:induction false} RunBarren(s: State, events: seq<Event>, starts: nat, outcomes: nat)
    requires Barren(s, starts, outcomes) && Run(s, events).Some?
    ensures Barren(Run(s, events).value, starts, outcomes)
  {
    hide Step, Barren;
    if |events| > 0 {
      RunBarren(s, events[..|events| - 1], starts, outcomes);
      BarrenStep(Run(s, events[..|events| - 1]).value, events[|events| - 1], starts, outcomes);
    }
  }

  lemma RunSnoc(s: State, events: seq<Event>, s': State, e: Event)
    requires Run(s, events) == Some(s')
    ensures Run(s, events + [e]) == Step(s', e)
  {
    assert (events + [e])[..|events|] == events;
  }

  /** The thread that just published is served its own token on its next call. */
  lemma PublishedServed(s: State, t: nat) returns (s': State)
    requires PcOf(s, t).Responded? && MayPublish(s, t)
    ensures Step(s, Finish(t)).Some? && Step(Step(s, Finish(t)).value, Fast(t)) == Some(s')
    ensures s'.starts == s.starts && ServedFromCache(s', |s.outcomes|)
  {
    var finished := Step(s, Finish(t)).value;
    assert PcOf(finished, t).Idle? && HasValidToken(finished);
    s' := Step(finished, Fast(t)).value;
    assert s'.outcomes[|s.outcomes| + 1].Cached?;
  }

  /** The request can come back with a token that is still valid. */
  lemma AnsweredInTime(s: State, t: nat) returns (answer: Event, s': State)
    requires PcOf(s, t).Requesting?
    ensures Step(s, answer) == Some(s') && PcOf(s', t).Responded? && MayPublish(s', t)
    ensures s'.starts == s.starts && s'.outcomes == s.outcomes
  {
    answer := Respond(t, Fresh("token", s.now + 301));
    s' := Step(s, answer).value;
  }

  /** A refresh in flight publishes its token after the clear, and a call is served it with no refresh begun. */
  lemma InFlightServed(s: State, t: nat) returns (events: seq<Event>)
    requires MayPublish(s, t)
    ensures Run(s, events).Some?
    ensures var s' := Run(s, events).value; s'.starts == s.starts && ServedFromCache(s', |s.outcomes|)
  {
    assert Run(s, []) == Some(s);
    hide Step, Run, ServedFromCache;
    events := [];
    var s1 := s;
    if PcOf(s, t).Requesting? {
      var answer;
      answer, s1 := AnsweredInTime(s, t);
      events := [] + [answer];
      RunSnoc(s, [], s, answer);
    }
    var s2 := PublishedServed(s1, t);
    RunSnoc(s, events, s1, Finish(t));
    RunSnoc(s, events + [Finish(t)], Step(s1, Finish(t)).value, Fast(t));
    events := events + [Finish(t)] + [Fast(t)];
  }

  /** Whatever happens after a clear, no call is served from the cache before a new refresh has begun. */
  ghost predicate ClearHolds(s: State) {
    forall events | Run(Step(s, Clear).value, events).Some? ::
      ServedFromCache(Run(Step(s, Clear).value, events).value, |s.outcomes|)
      ==> |Run(Step(s, Clear).value, events).value.starts| > |s.starts|
  }

  /**
   A clear forces a refresh on the next access exactly when no thread was requesting a
   token or had been answered with one that is still valid. A refresh in flight at the
   clear publishes its token afterwards, possibly one of the account left behind.
   */
  lemma ClearForcesRefresh(s: State)
    ensures ClearHolds(s)
            <==> forall t :: !(|| PcOf(s, t).Requesting?
                               || (&& PcOf(s, t).Responded? && PcOf(s, t).response.Fresh?
                                   && PcOf(s, t).response.expiresAt > s.now + 300))
  {
    var cleared := Step(s, Clear).value;
    if forall t :: !MayPublish(s, t) {
      ClearedBarren(s);
      hide Step, Run, Barren, ServedFromCache;
      forall events | Run(cleared, events).Some?
        ensures ServedFromCache(Run(cleared, events).value, |s.outcomes|)
                ==> |Run(cleared, events).value.starts| > |s.starts|
      {
        RunBarren(cleared, events, |s.starts|, |s.outcomes|);
        BarrenMeans(Run(cleared, events).value, |s.starts|, |s.outcomes|);
      }
      assert ClearHolds(s);
      forall t
        ensures !(|| PcOf(s, t).Requesting?
                  || (&& PcOf(s, t).Responded? && PcOf(s, t).response.Fresh?
                      && PcOf(s, t).response.expiresAt > s.now + 300))
      {
        assert !MayPublish(s, t);
      }
    } else {
      var t :| MayPublish(s, t);
      ClearedPcs(s, t);
      var events := InFlightServed(cleared, t);
      assert !ClearHolds(s);
    }
  }

  lemma BarrenMeans(s: State, starts: nat, outcomes: nat)
    requires Barren(s, starts, outcomes)
    ensures ServedFromCache(s, outcomes) ==> |s.starts| > starts
  {}

  lemma ClearedPcs(s: State, t: nat)
    ensures Step(s, Clear) == Some(s.(accessToken := None, expiresAt := None, stored := None))
    ensures PcOf(Step(s, Clear).value, t) == PcOf(s, t)
  {}

  lemma ClearedBarren(s: State)
    requires forall t :: !MayPublish(s, t)
    ensures Barren(Step(s, Clear).value, |s.starts|, |s.outcomes|)
  {
    var cleared := Step(s, Clear).value;
    forall t ensures !MayPublish(cleared, t) { assert !MayPublish(s, t); }
  }

  /** Thread 0 requests a token, the cache is cleared, and thread 1 is served the token requested before. */
  function Race(token: string): seq<Event> {
    [Fast(0), Enter(0), Clear, Respond(0, Fresh(token, 1000)), Finish(0), Fast(1)]
  }

  function RaceStage(k: nat, token: string): State {
    if k == 0 then Init(0)
    else if k == 1 then Init(0).(pcs := map[0 := FastMissed])
    else
      var started := Init(0).(refreshing := true, pcs := map[0 := Requesting], starts := [Start(0, 0, None)]);
      var stored := started.(refreshing := false, accessToken := Some(token), expiresAt := Some(1000),
                             stored := Some(1000));
      if k <= 3 then started
      else if k == 4 then started.(pcs := map[0 := Responded(Fresh(token, 1000))])
      else if k == 5 then stored.(pcs := map[0 := Idle], outcomes := [Refreshed(0, token)])
      else stored.(pcs := map[0 := Idle, 1 := Idle], outcomes := [Refreshed(0, token), Cached(1, token, 1000, 0)])
  }

  lemma RaceStep(k: nat, token: string)
    requires k < 6
    ensures Step(RaceStage(k, token), Race(token)[k]) == Some(RaceStage(k + 1, token))
  {
    var s, s' := RaceStage(k, token), RaceStage(k + 1, token);
    if k == 0 {
      assert s.pcs[0 := FastMissed] == s'.pcs;
    } else if k == 3 {
      assert s.pcs[0 := Responded(Fresh(token, 1000))] == s'.pcs;
    } else if k == 1 {
      assert s.pcs[0 := Requesting] == s'.pcs && s.starts + [Start(0, 0, None)] == s'.starts;
    } else if k == 4 {
      assert NotifyAll(s.pcs[0 := Idle]) == s'.pcs && s.outcomes + [Refreshed(0, token)] == s'.outcomes;
    } else if k == 5 {
      assert s.pcs[1 := Idle] == s'.pcs && s.outcomes + [Cached(1, token, 1000, 0)] == s'.outcomes;
    }
  }

  lemma {:induction false} RaceRuns(k: nat, token: string)
    requires k <= 6
    ensures Run(Init(0), Race(token)[..k]) == Some(RaceStage(k, token))
  {
    hide Step;
    if k > 0 {
      RaceRuns(k - 1, token);
      RaceStep(k - 1, token);
      RunTake(Init(0), Race(token), k - 1, RaceStage(k - 1, token));
    }
  }

  /** A reachable run: the one refresh began before the clear, and its token is served from the cache after it. */
  lemma OldTokenServed(token: string)
    ensures var before, after := Run(Init(0), Race(token)[..2]), Run(Init(0), Race(token));
            && Race(token)[2] == Clear && before.Some? && after.Some?
            && |before.value.starts| == |after.value.starts| == 1
            && after.value.outcomes == [Refreshed(0, token), Cached(1, token, 1000, 0)]
  {
    RaceRuns(2, token);
    RaceRuns(6, token);
    assert Race(token)[..6] == Race(token);
  }

  lemma RunTake(s: State, events: seq<Event>, k: nat, mid: State)
    requires k < |events| && Run(s, events[..k]) == Some(mid)
    ensures Run(s, events[..k + 1]) == Step(mid, events[k])
  {
    assert events[..k + 1] == events[..k] + [events[k]];
    RunSnoc(s, events[..k], mid, events[k]);
  }
}
