/** What a cancellation does to the other requests of the same tab. */
module RemoteCancel {
  import opened Common
  import opened RemoteModel
  import opened RemoteSafety

  /** Request `j` was dispatched, was not accepted, and its tab no longer waits for its token. */
  ghost predicate Forgotten(s: State, j: nat) {
    && j < |s.ops| && s.ops[j].tab.Some? && s.ops[j].token.Some? && !AcceptedOp(s.accepted, j)
    && var tokens, tab := Tokens(s, s.ops[j].kind), s.ops[j].tab.value;
       tab in tokens ==> tokens[tab] != s.ops[j].token.value
  }

  /** Cancelling a save leaves every other awaited save awaited. */
  lemma SaveCancelKeepsOthers(s: State, i: nat, j: nat, tab: nat)
    requires Safe(s) && StepCancel(s, i).Some? && s.ops[i].kind.Save?
    requires Awaited(s, j, Save, tab) && j != i
    ensures Awaited(StepCancel(s, i).value, j, Save, tab)
  {
    hide TokensOk, LatestOk, DeliveredOk, AcceptedOk;
    CancelShape(s, i);
    NewestSame(s.ops, StepCancel(s, i).value.ops, j, |s.ops|, Save, tab);
    if s.ops[i].tab == Some(tab) { DifferentTokens(s, i, j); }
  }

  lemma DifferentTokens(s: State, i: nat, j: nat)
    requires TokensOk(s) && i < |s.ops| && j < |s.ops| && i != j && s.ops[i].token.Some? && s.ops[j].token.Some?
    ensures s.ops[i].token != s.ops[j].token
  {
    if i < j {
      assert s.ops[i].token.value < s.ops[j].token.value;
    } else {
      assert s.ops[j].token.value < s.ops[i].token.value;
    }
  }

  /** Cancelling a reload leaves another awaited reload awaited exactly when it is for another tab. */
  lemma OpenCancelKeepsOthers(s: State, i: nat, j: nat, tab: nat)
    requires Safe(s) && StepCancel(s, i).Some? && s.ops[i].kind.Open?
    requires Awaited(s, j, Open, tab) && j != i
    ensures Awaited(StepCancel(s, i).value, j, Open, tab) <==> s.ops[i].tab != Some(tab)
    ensures s.ops[i].tab == Some(tab) ==> Forgotten(StepCancel(s, i).value, j)
  {
    hide TokensOk, LatestOk, DeliveredOk, AcceptedOk;
    CancelShape(s, i);
    NewestSame(s.ops, StepCancel(s, i).value.ops, j, |s.ops|, Open, tab);
  }

  /******* A forgotten request stays ignored *******/

  lemma ForgottenProcessOne(s: State, q: Queued, j: nat)
    requires TokensOk(s) && OpsOk(s.ops) && QueuedOk(s.ops, q) && Forgotten(s, j)
    ensures Forgotten(ProcessOne(s, q), j)
  {
    var s' := ProcessOne(s, q);
    assert OpOk(s.ops[q.op]);
    if s'.accepted != s.accepted {
      assert q.op != j;
      forall k | 0 <= k < |s'.accepted| ensures s'.accepted[k].op != j {
        if k < |s.accepted| { assert !AcceptedOp(s.accepted, j); }
      }
    }
  }

  lemma {:induction false} ForgottenProcessAll(s: State, outcomes: seq<Queued>, j: nat)
    requires TokensOk(s) && LatestOk(s, Save) && LatestOk(s, Open) && AcceptedOk(s) && OpsOk(s.ops) && Forgotten(s, j)
    requires forall k | 0 <= k < |outcomes| :: QueuedOk(s.ops, outcomes[k])
    ensures Forgotten(ProcessAll(s, outcomes), j)
  {
    hide TokensOk, LatestOk, AcceptedOk, OpsOk, QueuedOk, ProcessOne, Forgotten;
    if |outcomes| > 0 {
      var front, q := outcomes[..|outcomes| - 1], outcomes[|outcomes| - 1];
      ProcessAllSafe(s, front);
      ForgottenProcessAll(s, front, j);
      ForgottenProcessOne(ProcessAll(s, front), q, j);
    }
  }

  /** A step of one request that keeps its identity and the tokens. */
  lemma ForgottenKept(s: State, s': State, j: nat)
    requires Forgotten(s, j) && SameIdentities(s.ops, s'.ops) && s'.accepted == s.accepted
    requires s'.latestSave == s.latestSave && s'.latestOpen == s.latestOpen
    ensures Forgotten(s', j)
  {
    assert SameIdentity(s.ops[j], s'.ops[j]);
  }

  lemma ForgottenComplete(s: State, i: nat, j: nat)
    requires OpsOk(s.ops) && TokensOk(s) && Forgotten(s, j) && StepComplete(s, i).Some?
    ensures Forgotten(StepComplete(s, i).value, j)
  {
    var s' := StepComplete(s, i).value;
    assert OpOk(s.ops[i]);
    if s'.accepted != s.accepted {
      assert i != j;
      forall k | 0 <= k < |s'.accepted| ensures s'.accepted[k].op != j {
        if k < |s.accepted| { assert !AcceptedOp(s.accepted, j); }
      }
    }
  }

  lemma ForgottenDispatch(s: State, e: Event, j: nat)
    requires TokensOk(s) && Forgotten(s, j) && (e.DispatchSave? || e.DispatchOpen?) && Step(s, e).Some?
    ensures Forgotten(Step(s, e).value, j)
  {}

  lemma ForgottenCancel(s: State, e: Event, j: nat)
    requires OpsOk(s.ops) && Forgotten(s, j) && (e.Cancel? || e.CloseTab?) && Step(s, e).Some?
    ensures Forgotten(Step(s, e).value, j)
  {}

  lemma ForgottenStep(s: State, e: Event, j: nat)
    requires Safe(s) && Forgotten(s, j) && Step(s, e).Some?
    ensures Forgotten(Step(s, e).value, j)
  {
    hide TokensOk, LatestOk, AcceptedOk, OpsOk, Forgotten, OpOk, Alone;
    if e.DispatchSave? || e.DispatchOpen? {
      ForgottenDispatch(s, e, j);
    } else if e.Complete? {
      ForgottenComplete(s, e.op, j);
    } else if e.ProcessPending? {
      var taken := s.(queue := []);
      QuietStep(s, taken);
      ForgottenKept(s, taken, j);
      ForgottenProcessAll(taken, s.queue, j);
    } else if e.Cancel? || e.CloseTab? {
      ForgottenCancel(s, e, j);
    } else {
      if e.WorkerStores? || e.MonitorStores? {
        StoreAlone(s, e);
      } else if e.MonitorPolls? {
        PollAlone(s, e.op);
      } else if e.MonitorChecks? || e.MonitorWaits? {
        WaitAlone(s, e);
      } else if e.MonitorSwaps? || e.MonitorRepolls? {
        MonitorAlone(s, e);
      } else {
        WorkerAlone(s, e);
      }
      AloneKeeps(s, Step(s, e).value, e.op);
      ForgottenKept(s, Step(s, e).value, j);
    }
  }

  lemma AloneKeeps(s: State, s': State, i: nat)
    requires Alone(s, s', i)
    ensures SameIdentities(s.ops, s'.ops) && s'.accepted == s.accepted
    ensures s'.latestSave == s.latestSave && s'.latestOpen == s.latestOpen
  {
    hide OpOk, QueueGrew;
  }

  /** Whatever happens next, a forgotten request is never accepted. */
  lemma {:induction false} ForgottenForever(s: State, events: seq<Event>, j: nat)
    requires Safe(s) && Forgotten(s, j) && Run(s, events).Some?
    ensures !AcceptedOp(Run(s, events).value.accepted, j)
    ensures Forgotten(Run(s, events).value, j)
  {
    if |events| > 0 {
      var front := events[..|events| - 1];
      ForgottenForever(s, front, j);
      RunSafe(s, front);
      ForgottenStep(Run(s, front).value, events[|events| - 1], j);
    }
  }

  /******* It does happen *******/

  function Then(s: Option<State>, e: Event): Option<State> {
    if s.Some? then Step(s.value, e) else None
  }

  lemma ReachableThen(s: Option<State>, e: Event)
    requires s.Some? && Reachable(s.value) && Then(s, e).Some?
    ensures Reachable(Then(s, e).value)
  {
    var restored: set<nat>, events: seq<Event> :| Run(Init(restored), events) == Some(s.value);
    assert (events + [e])[..|events|] == events;
    assert Run(Init(restored), events + [e]) == Then(s, e);
  }

  lemma TwoReloads() returns (s: State)
    ensures Reachable(s) && |s.ops| == 2 && s.ops[0].tab == Some(7) && s.ops[1].tab == Some(7)
    ensures s.ops[0].kind.Open? && s.ops[0].monitor.Polling? && !s.ops[0].cancelled
    ensures Awaited(s, 1, Open, 7) && !s.ops[1].cancelled
  {
    var init := Init({7});
    assert Run(init, []) == Some(init);
    var s1 := Then(Some(init), DispatchOpen(Some(7)));
    var s2 := Then(s1, DispatchOpen(Some(7)));
    var s3 := Then(s2, Spawn(0));
    var s4 := Then(s3, Spawn(1));
    hide Run, Reachable;
    assert Reachable(init) by { StartReachable({7}); }
    ReachableThen(Some(init), DispatchOpen(Some(7)));
    ReachableThen(s1, DispatchOpen(Some(7)));
    ReachableThen(s2, Spawn(0));
    ReachableThen(s3, Spawn(1));
    s := s4.value;
  }

  lemma StartReachable(restored: set<nat>)
    ensures Reachable(Init(restored))
  {
    assert Run(Init(restored), []) == Some(Init(restored));
  }

  /**
   Two reloads of one tab can wait for a password at the same time. Cancelling the
   older one then forgets the newer, uncancelled one for good.
   */
  lemma CancelDropsNewerReload() returns (s: State)
    ensures Reachable(s) && |s.ops| == 2 && s.ops[0].cancelled && !s.ops[1].cancelled && Forgotten(s, 1)
    ensures forall events | Run(s, events).Some? :: !AcceptedOp(Run(s, events).value.accepted, 1)
  {
    hide Reachable, Run;
    var before := TwoReloads();
    AlwaysSafe(before);
    ReachableThen(Some(before), Cancel(0));
    s := StepCancel(before, 0).value;
    OpenCancelKeepsOthers(before, 0, 1, 7);
    AlwaysSafe(s);
    forall events | Run(s, events).Some? ensures !AcceptedOp(Run(s, events).value.accepted, 1) {
      ForgottenForever(s, events, 1);
    }
  }
}
