/** At most one outcome per request, and only the latest uncancelled request is accepted. */
module RemoteSafety {
  import opened Common
  import opened RemoteModel

  /******* One outcome per request *******/

  function Writers(op: Op): nat {
    op.stores + (if op.worker.Storing? then 1 else 0) + (if op.monitor.StoringTimeout? then 1 else 0)
  }

  /** The completion flag lets one side through to publish. */
  ghost predicate OpOk(op: Op) {
    && Writers(op) <= (if op.finished then 1 else 0)
    && (op.slot.Some? || op.monitor.Completing? ==> op.kind.Save? && op.stores == 1)
    && !(op.slot.Some? && op.monitor.Completing?)
    && (op.worker.NotStarted? <==> op.monitor.NotPolling?)
    && (op.tab.Some? <==> op.token.Some?)
    && (op.kind.Save? ==> op.tab.Some?)
  }

  ghost predicate OpsOk(ops: seq<Op>) {
    forall i | 0 <= i < |ops| :: OpOk(ops[i])
  }

  function QueuedOps(queue: seq<Queued>): multiset<nat> {
    if |queue| == 0 then multiset{} else QueuedOps(queue[..|queue| - 1]) + multiset{queue[|queue| - 1].op}
  }

  /** Outcomes waiting in the window's queue or already taken from it. */
  function Delivered(s: State): multiset<nat> {
    QueuedOps(s.queue) + multiset(s.consumed)
  }

  /** No request is delivered twice, and only published opens are delivered. */
  ghost predicate DeliveredOk(s: State) {
    && (forall i | i in Delivered(s) :: Delivered(s)[i] == 1 && i < |s.ops| && s.ops[i].stores == 1)
    && (forall k | 0 <= k < |s.queue| :: QueuedOk(s.ops, s.queue[k]))
  }

  ghost predicate QueuedOk(ops: seq<Op>, q: Queued) {
    q.op < |ops| && ops[q.op].kind.Open? && q.tab == ops[q.op].tab && q.token == ops[q.op].token
  }

  /******* Tokens *******/

  /** Request tokens are given out in increasing order. */
  ghost predicate TokensOk(s: State) {
    && (forall i | 0 <= i < |s.ops| && s.ops[i].token.Some? :: s.ops[i].token.value < s.nextRequestId)
    && (forall i, j | 0 <= i < j < |s.ops| && s.ops[i].token.Some? && s.ops[j].token.Some? ::
          s.ops[i].token.value < s.ops[j].token.value)
  }

  predicate For(op: Op, kind: Kind, tab: nat) {
    op.kind == kind && op.tab == Some(tab)
  }

  /** No later request of the same kind was made for the tab. */
  ghost predicate Newest(ops: seq<Op>, i: nat, n: nat, kind: Kind, tab: nat)
    requires n <= |ops|
  {
    i < n && For(ops[i], kind, tab) && forall j | i < j < n :: !For(ops[j], kind, tab)
  }

  ghost predicate AcceptedOp(accepted: seq<Accepted>, i: nat) {
    exists k :: 0 <= k < |accepted| && accepted[k].op == i
  }

  /** Request `i` is the latest uncancelled one for its tab and was not accepted yet. */
  ghost predicate Awaited(s: State, i: nat, kind: Kind, tab: nat) {
    && Newest(s.ops, i, |s.ops|, kind, tab) && !s.ops[i].cancelled && !AcceptedOp(s.accepted, i)
    && tab in Tokens(s, kind) && s.ops[i].token == Some(Tokens(s, kind)[tab])
  }

  ghost predicate LatestOk(s: State, kind: Kind) {
    forall tab | tab in Tokens(s, kind) :: exists i: nat :: Awaited(s, i, kind, tab)
  }

  /** Everything accepted was the newest of its tab, uncancelled, and accepted once. */
  ghost predicate AcceptedOk(s: State) {
    && (forall k | 0 <= k < |s.accepted| ::
          var a := s.accepted[k];
          && !a.cancelled && a.op < a.at <= |s.ops| && s.ops[a.op].tab.Some?
          && Newest(s.ops, a.op, a.at, s.ops[a.op].kind, s.ops[a.op].tab.value))
    && (forall k, l | 0 <= k < l < |s.accepted| :: s.accepted[k].op != s.accepted[l].op)
  }

  ghost predicate Safe(s: State) {
    OpsOk(s.ops) && DeliveredOk(s) && TokensOk(s) && LatestOk(s, Save) && LatestOk(s, Open) && AcceptedOk(s)
  }

  /******* Steps that keep the identities of requests *******/

  predicate SameIdentity(a: Op, b: Op) {
    a.kind == b.kind && a.tab == b.tab && a.token == b.token
  }

  ghost predicate SameIdentities(a: seq<Op>, b: seq<Op>) {
    |a| == |b| && forall i | 0 <= i < |a| :: SameIdentity(a[i], b[i])
  }

  lemma NewestSame(a: seq<Op>, b: seq<Op>, i: nat, n: nat, kind: Kind, tab: nat)
    requires n <= |a| && SameIdentities(a, b)
    ensures Newest(a, i, n, kind, tab) == Newest(b, i, n, kind, tab)
  {
    forall k | 0 <= k < n ensures For(a[k], kind, tab) == For(b[k], kind, tab) { assert SameIdentity(a[k], b[k]); }
  }

  lemma TokensSame(s: State, s': State)
    requires TokensOk(s) && SameIdentities(s.ops, s'.ops) && s'.nextRequestId == s.nextRequestId
    ensures TokensOk(s')
  {
    forall i | 0 <= i < |s.ops| ensures s'.ops[i].token == s.ops[i].token { assert SameIdentity(s.ops[i], s'.ops[i]); }
  }

  ghost predicate AcceptedEntry(s: State, a: Accepted) {
    && !a.cancelled && a.op < a.at <= |s.ops| && s.ops[a.op].tab.Some?
    && Newest(s.ops, a.op, a.at, s.ops[a.op].kind, s.ops[a.op].tab.value)
  }

  lemma EntrySame(s: State, s': State, a: Accepted)
    requires SameIdentities(s.ops, s'.ops) && AcceptedEntry(s, a)
    ensures AcceptedEntry(s', a)
  {
    assert SameIdentity(s.ops[a.op], s'.ops[a.op]);
    NewestSame(s.ops, s'.ops, a.op, a.at, s.ops[a.op].kind, s.ops[a.op].tab.value);
  }

  lemma AcceptedSame(s: State, s': State)
    requires AcceptedOk(s) && SameIdentities(s.ops, s'.ops) && s'.accepted == s.accepted
    ensures AcceptedOk(s')
  {
    forall k | 0 <= k < |s.accepted| ensures AcceptedEntry(s', s.accepted[k]) {
      assert AcceptedEntry(s, s.accepted[k]);
      EntrySame(s, s', s.accepted[k]);
    }
  }

  /** The request a token stands for. */
  lemma AwaitedIs(s: State, kind: Kind, tab: nat, i: nat)
    requires TokensOk(s) && LatestOk(s, kind) && tab in Tokens(s, kind)
    requires i < |s.ops| && s.ops[i].token == Some(Tokens(s, kind)[tab])
    ensures Awaited(s, i, kind, tab)
  {
    var j: nat :| Awaited(s, j, kind, tab);
    assert s.ops[j].token == s.ops[i].token;
    assert j == i;
  }

  /** Entries that stay keep the request they stand for. */
  lemma LatestShrinks(s: State, s': State, kind: Kind)
    requires LatestOk(s, kind) && SameIdentities(s.ops, s'.ops)
    requires forall tab | tab in Tokens(s', kind) ::
               tab in Tokens(s, kind) && Tokens(s', kind)[tab] == Tokens(s, kind)[tab]
    requires forall tab, i: nat | tab in Tokens(s', kind) && Awaited(s, i, kind, tab) ::
               !s'.ops[i].cancelled && !AcceptedOp(s'.accepted, i)
    ensures LatestOk(s', kind)
  {
    forall tab | tab in Tokens(s', kind) ensures exists i: nat :: Awaited(s', i, kind, tab) {
      var i: nat :| Awaited(s, i, kind, tab);
      NewestSame(s.ops, s'.ops, i, |s.ops|, kind, tab);
      assert SameIdentity(s.ops[i], s'.ops[i]);
      assert Awaited(s', i, kind, tab);
    }
  }

  /** A step of one request that keeps its identity and touches no token. */
  lemma QuietStep(s: State, s': State)
    requires TokensOk(s) && LatestOk(s, Save) && LatestOk(s, Open) && AcceptedOk(s)
    requires SameIdentities(s.ops, s'.ops) && forall i | 0 <= i < |s.ops| :: s'.ops[i].cancelled == s.ops[i].cancelled
    requires s'.nextRequestId == s.nextRequestId && s'.accepted == s.accepted
    requires s'.latestSave == s.latestSave && s'.latestOpen == s.latestOpen
    ensures TokensOk(s') && LatestOk(s', Save) && LatestOk(s', Open) && AcceptedOk(s')
  {
    hide LatestOk, AcceptedOk, TokensOk;
    TokensSame(s, s');
    AcceptedSame(s, s');
    LatestShrinks(s, s', Save);
    LatestShrinks(s, s', Open);
  }

  /******* Dispatch *******/

  lemma NewestAppend(ops: seq<Op>, op: Op, i: nat, n: nat, kind: Kind, tab: nat)
    requires n <= |ops|
    ensures Newest(ops + [op], i, n, kind, tab) == Newest(ops, i, n, kind, tab)
    ensures Newest(ops, i, |ops|, kind, tab) && !For(op, kind, tab) ==> Newest(ops + [op], i, |ops| + 1, kind, tab)
    ensures For(op, kind, tab) ==> Newest(ops + [op], |ops|, |ops| + 1, kind, tab)
  {
    var more := ops + [op];
    forall k | 0 <= k < |ops| ensures more[k] == ops[k] {}
  }

  lemma FreshUnaccepted(s: State)
    requires AcceptedOk(s)
    ensures !AcceptedOp(s.accepted, |s.ops|)
  {
    forall k | 0 <= k < |s.accepted| ensures s.accepted[k].op != |s.ops| { assert AcceptedEntry(s, s.accepted[k]); }
  }

  /** One more request: its token is the latest of its tab, all others stay. */
  lemma DispatchLatest(s: State, s': State, op: Op, kind: Kind)
    requires LatestOk(s, kind) && AcceptedOk(s) && s'.ops == s.ops + [op] && s'.accepted == s.accepted && !op.cancelled
    requires op.tab.Some? <==> op.token.Some?
    requires Tokens(s', kind) == if op.kind == kind && op.tab.Some? then Tokens(s, kind)[op.tab.value := op.token.value]
                                 else Tokens(s, kind)
    ensures LatestOk(s', kind)
  {
    hide AcceptedOk;
    forall tab | tab in Tokens(s', kind) ensures exists i: nat :: Awaited(s', i, kind, tab) {
      if For(op, kind, tab) {
        FreshUnaccepted(s);
        NewestAppend(s.ops, op, |s.ops|, |s.ops|, kind, tab);
        assert Awaited(s', |s.ops|, kind, tab);
      } else {
        var i: nat :| Awaited(s, i, kind, tab);
        NewestAppend(s.ops, op, i, |s.ops|, kind, tab);
        assert Awaited(s', i, kind, tab);
      }
    }
  }

  lemma DispatchAccepted(s: State, s': State, op: Op)
    requires AcceptedOk(s) && s'.ops == s.ops + [op] && s'.accepted == s.accepted
    ensures AcceptedOk(s')
  {
    forall k | 0 <= k < |s.accepted| ensures AcceptedEntry(s', s.accepted[k]) {
      var a := s.accepted[k];
      assert AcceptedEntry(s, a);
      NewestAppend(s.ops, op, a.op, a.at, s.ops[a.op].kind, s.ops[a.op].tab.value);
    }
  }

  lemma DispatchTokens(s: State, s': State, op: Op)
    requires TokensOk(s) && s'.ops == s.ops + [op]
    requires op.token == None || op.token == Some(s.nextRequestId)
    requires s'.nextRequestId == if op.token.Some? then s.nextRequestId + 1 else s.nextRequestId
    ensures TokensOk(s')
  {}

  lemma DispatchStep(s: State, e: Event)
    requires Safe(s) && (e.DispatchSave? || e.DispatchOpen?) && Step(s, e).Some?
    ensures Safe(Step(s, e).value)
  {
    hide TokensOk, LatestOk, AcceptedOk, DeliveredOk, OpsOk;
    var s' := Step(s, e).value;
    var op := s'.ops[|s.ops|];
    DispatchTokens(s, s', op);
    DispatchLatest(s, s', op, Save);
    DispatchLatest(s, s', op, Open);
    DispatchAccepted(s, s', op);
    assert OpOk(op);
    DispatchRest(s, s', op);
  }

  lemma DispatchRest(s: State, s': State, op: Op)
    requires OpsOk(s.ops) && DeliveredOk(s) && OpOk(op) && s'.ops == s.ops + [op]
    requires s'.queue == s.queue && s'.consumed == s.consumed
    ensures OpsOk(s'.ops) && DeliveredOk(s')
  {
    hide OpOk, QueuedOps;
  }

  /******* Worker, monitor and spawning *******/

  /** A step of request `i` alone, publishing nothing. */
  ghost predicate Alone(s: State, s': State, i: nat) {
    && i < |s.ops| && |s'.ops| == |s.ops| && s'.ops == s.ops[i := s'.ops[i]]
    && SameIdentity(s.ops[i], s'.ops[i]) && s'.ops[i].cancelled == s.ops[i].cancelled && OpOk(s'.ops[i])
    && s'.nextRequestId == s.nextRequestId && s'.accepted == s.accepted && s'.consumed == s.consumed
    && s'.latestSave == s.latestSave && s'.latestOpen == s.latestOpen
    && (s'.ops[i].stores == s.ops[i].stores ==> s'.queue == s.queue)
    && (s'.ops[i].stores != s.ops[i].stores ==>
          && s.ops[i].stores == 0 && s'.ops[i].stores == 1
          && (s'.queue != s.queue ==> QueueGrew(s, s', i)))
  }

  ghost predicate QueueGrew(s: State, s': State, i: nat)
    requires i < |s.ops|
  {
    && s.ops[i].kind.Open?
    && exists q: Queued :: q.op == i && q.tab == s.ops[i].tab && q.token == s.ops[i].token && s'.queue == s.queue + [q]
  }

  lemma AloneDelivered(s: State, s': State, i: nat)
    requires DeliveredOk(s) && Alone(s, s', i)
    ensures DeliveredOk(s')
  {
    hide OpOk;
    if s'.queue != s.queue {
      var q: Queued :| q.op == i && q.tab == s.ops[i].tab && q.token == s.ops[i].token && s'.queue == s.queue + [q];
      assert s'.queue[..|s.queue|] == s.queue;
      assert Delivered(s') == Delivered(s) + multiset{i};
      assert i !in Delivered(s);
      forall k | 0 <= k < |s'.queue| ensures QueuedOk(s'.ops, s'.queue[k]) {
        if k < |s.queue| { assert QueuedOk(s.ops, s.queue[k]); }
      }
    } else {
      forall k | 0 <= k < |s.queue| ensures QueuedOk(s'.ops, s.queue[k]) { assert QueuedOk(s.ops, s.queue[k]); }
    }
  }

  lemma AloneSafe(s: State, s': State, i: nat)
    requires Safe(s) && Alone(s, s', i)
    ensures Safe(s')
  {
    hide TokensOk, LatestOk, AcceptedOk, DeliveredOk, OpOk;
    AloneDelivered(s, s', i);
    QuietStep(s, s');
  }

  lemma WorkerAlone(s: State, e: Event)
    requires OpsOk(s.ops) && (e.Spawn? || e.WorkerEnds? || e.WorkerChecks? || e.WorkerSwaps?) && Step(s, e).Some?
    ensures Alone(s, Step(s, e).value, e.op)
  {
    assert OpOk(s.ops[e.op]);
  }

  lemma StoreAlone(s: State, e: Event)
    requires OpsOk(s.ops) && (e.WorkerStores? || e.MonitorStores?) && Step(s, e).Some?
    ensures Alone(s, Step(s, e).value, e.op)
  {
    assert OpOk(s.ops[e.op]);
    var s' := Step(s, e).value;
    if s.ops[e.op].kind.Open? { assert s'.queue == s.queue + [s'.queue[|s.queue|]]; }
  }

  lemma PollAlone(s: State, i: nat)
    requires OpsOk(s.ops) && StepMonitorPolls(s, i).Some?
    ensures Alone(s, StepMonitorPolls(s, i).value, i)
  {
    assert OpOk(s.ops[i]);
  }

  lemma WaitAlone(s: State, e: Event)
    requires OpsOk(s.ops) && (e.MonitorChecks? || e.MonitorWaits?) && Step(s, e).Some?
    ensures Alone(s, Step(s, e).value, e.op)
  {
    assert OpOk(s.ops[e.op]);
  }

  lemma MonitorAlone(s: State, e: Event)
    requires OpsOk(s.ops) && (e.MonitorSwaps? || e.MonitorRepolls?) && Step(s, e).Some?
    ensures Alone(s, Step(s, e).value, e.op)
  {
    assert OpOk(s.ops[e.op]);
  }

  /******* Accepting a result *******/

  /** Accepting the awaited request of a tab forgets its token and books it. */
  lemma AcceptAwaited(s: State, s': State, i: nat, kind: Kind, tab: nat)
    requires TokensOk(s) && LatestOk(s, Save) && LatestOk(s, Open) && AcceptedOk(s) && Awaited(s, i, kind, tab)
    requires s'.ops == s.ops && s'.nextRequestId == s.nextRequestId
    requires s'.accepted == s.accepted + [Accepted(i, |s.ops|, s.ops[i].cancelled)]
    requires s'.latestSave == if kind.Save? then s.latestSave - {tab} else s.latestSave
    requires s'.latestOpen == if kind.Open? then s.latestOpen - {tab} else s.latestOpen
    ensures TokensOk(s') && LatestOk(s', Save) && LatestOk(s', Open) && AcceptedOk(s')
  {
    AcceptLatest(s, s', i, kind, tab, Save);
    AcceptLatest(s, s', i, kind, tab, Open);
    hide LatestOk, TokensOk;
    forall k | 0 <= k < |s.accepted| ensures AcceptedEntry(s', s.accepted[k]) && s.accepted[k].op != i {
      assert AcceptedEntry(s, s.accepted[k]);
      EntrySame(s, s', s.accepted[k]);
      assert !AcceptedOp(s.accepted, i);
    }
    assert AcceptedEntry(s', s'.accepted[|s.accepted|]);
    TokensSame(s, s');
  }

  lemma AcceptLatest(s: State, s': State, i: nat, kind: Kind, tab: nat, other: Kind)
    requires LatestOk(s, other) && Awaited(s, i, kind, tab) && s'.ops == s.ops
    requires s'.accepted == s.accepted + [Accepted(i, |s.ops|, s.ops[i].cancelled)]
    requires Tokens(s', other) == if other == kind then Tokens(s, other) - {tab} else Tokens(s, other)
    ensures LatestOk(s', other)
  {
    forall t, j: nat | t in Tokens(s', other) && Awaited(s, j, other, t)
      ensures !s'.ops[j].cancelled && !AcceptedOp(s'.accepted, j)
    {
      assert j != i;
      forall k | 0 <= k < |s'.accepted| ensures s'.accepted[k].op != j {
        if k < |s.accepted| { assert !AcceptedOp(s.accepted, j); }
      }
    }
    hide Awaited;
    LatestShrinks(s, s', other);
  }

  lemma AcceptSaveSafe(s: State, i: nat, outcome: Outcome)
    requires Safe(s) && i < |s.ops| && s.ops[i].kind.Save?
    ensures Safe(AcceptSave(s, i, outcome))
  {
    hide TokensOk, LatestOk, AcceptedOk, OpsOk, Awaited, DeliveredOk;
    var s' := AcceptSave(s, i, outcome);
    if s'.accepted != s.accepted {
      var tab := s.ops[i].tab.value;
      AwaitedIs(s, Save, tab, i);
      AcceptAwaited(s, s', i, Save, tab);
      SameDelivered(s, s');
    }
  }

  lemma SameDelivered(s: State, s': State)
    requires DeliveredOk(s) && s'.ops == s.ops && s'.queue == s.queue && s'.consumed == s.consumed
    ensures DeliveredOk(s')
  {}

  lemma CompleteStep(s: State, i: nat)
    requires Safe(s) && StepComplete(s, i).Some?
    ensures Safe(StepComplete(s, i).value)
  {
    hide TokensOk, LatestOk, AcceptedOk, DeliveredOk, OpsOk, Alone, Awaited;
    var done := WithOp(s, i, s.ops[i].(monitor := MonitorDone));
    DoneAlone(s, i);
    AloneSafe(s, done, i);
    if s.ops[i].monitor.Completing? {
      AcceptSaveSafe(done, i, s.ops[i].monitor.outcome);
    }
  }

  lemma DoneAlone(s: State, i: nat)
    requires OpsOk(s.ops) && i < |s.ops| && (s.ops[i].monitor.Notifying? || s.ops[i].monitor.Completing?)
    ensures Alone(s, WithOp(s, i, s.ops[i].(monitor := MonitorDone)), i)
    ensures s.ops[i].monitor.Completing? ==> s.ops[i].kind.Save?
  {
    assert OpOk(s.ops[i]);
  }

  /******* Draining the queue of opens *******/

  lemma ProcessOneSafe(s: State, q: Queued)
    requires TokensOk(s) && LatestOk(s, Save) && LatestOk(s, Open) && AcceptedOk(s) && QueuedOk(s.ops, q)
    requires OpsOk(s.ops)
    ensures var s' := ProcessOne(s, q);
            && TokensOk(s') && LatestOk(s', Save) && LatestOk(s', Open) && AcceptedOk(s')
            && s'.ops == s.ops && s'.queue == s.queue && s'.consumed == s.consumed + [q.op]
  {
    hide TokensOk, LatestOk, AcceptedOk, Awaited;
    var s' := ProcessOne(s, q);
    assert OpOk(s.ops[q.op]);
    if s'.accepted != s.accepted {
      AwaitedIs(s, Open, q.tab.value, q.op);
      AcceptAwaited(s, s', q.op, Open, q.tab.value);
    } else {
      QuietStep(s, s');
    }
  }

  lemma {:induction false} ProcessAllSafe(s: State, outcomes: seq<Queued>)
    requires TokensOk(s) && LatestOk(s, Save) && LatestOk(s, Open) && AcceptedOk(s) && OpsOk(s.ops)
    requires forall k | 0 <= k < |outcomes| :: QueuedOk(s.ops, outcomes[k])
    ensures var s' := ProcessAll(s, outcomes);
            && TokensOk(s') && LatestOk(s', Save) && LatestOk(s', Open) && AcceptedOk(s')
            && s'.ops == s.ops && s'.queue == s.queue
            && multiset(s'.consumed) == multiset(s.consumed) + QueuedOps(outcomes)
  {
    hide TokensOk, LatestOk, AcceptedOk, OpsOk, QueuedOk, ProcessOne;
    if |outcomes| > 0 {
      var front, q := outcomes[..|outcomes| - 1], outcomes[|outcomes| - 1];
      ProcessAllSafe(s, front);
      ProcessOneSafe(ProcessAll(s, front), q);
    }
  }

  lemma ProcessStep(s: State)
    requires Safe(s)
    ensures Safe(Step(s, ProcessPending).value)
  {
    hide TokensOk, LatestOk, AcceptedOk, OpsOk, ProcessOne, ProcessAll, QueuedOk;
    var taken := s.(queue := []);
    QuietStep(s, taken);
    ProcessAllSafe(taken, s.queue);
    DrainedOk(s, ProcessAll(taken, s.queue));
  }

  lemma DrainedOk(s: State, s': State)
    requires DeliveredOk(s) && s'.ops == s.ops && s'.queue == []
    requires multiset(s'.consumed) == multiset(s.consumed) + QueuedOps(s.queue)
    ensures DeliveredOk(s')
  {
    hide QueuedOk;
    assert Delivered(s') == Delivered(s);
  }

  /******* Cancelling and closing *******/

  lemma CancelLatest(s: State, s': State, i: nat, kind: Kind)
    requires LatestOk(s, kind) && StepCancel(s, i) == Some(s') && TokensOk(s) && OpOk(s.ops[i])
    ensures LatestOk(s', kind)
  {
    hide OpOk;
    assert SameIdentities(s.ops, s'.ops);
    var op := s.ops[i];
    forall tab, j: nat | tab in Tokens(s', kind) && Awaited(s, j, kind, tab)
      ensures !s'.ops[j].cancelled && !AcceptedOp(s'.accepted, j)
    {
      assert j != i by { if op.tab == Some(tab) && op.kind == kind { assert tab in Tokens(s', kind); } }
    }
    hide Awaited;
    LatestShrinks(s, s', kind);
  }

  lemma CancelShape(s: State, i: nat)
    requires OpsOk(s.ops) && StepCancel(s, i).Some?
    ensures var s' := StepCancel(s, i).value;
            && SameIdentities(s.ops, s'.ops) && OpsOk(s'.ops) && s'.nextRequestId == s.nextRequestId
            && s'.accepted == s.accepted && s'.queue == s.queue && s'.consumed == s.consumed
            && forall k | 0 <= k < |s.ops| :: s'.ops[k].stores == s.ops[k].stores
  {
    assert OpOk(s.ops[i]);
  }

  lemma DeliveredSame(s: State, s': State)
    requires DeliveredOk(s) && SameIdentities(s.ops, s'.ops) && s'.queue == s.queue && s'.consumed == s.consumed
    requires forall k | 0 <= k < |s.ops| :: s'.ops[k].stores == s.ops[k].stores
    ensures DeliveredOk(s')
  {
    hide QueuedOps;
    assert Delivered(s') == Delivered(s);
    forall k | 0 <= k < |s.queue| ensures QueuedOk(s'.ops, s.queue[k]) {
      assert QueuedOk(s.ops, s.queue[k]);
      assert SameIdentity(s.ops[s.queue[k].op], s'.ops[s.queue[k].op]);
    }
  }

  lemma CancelStep(s: State, i: nat)
    requires Safe(s) && StepCancel(s, i).Some?
    ensures Safe(StepCancel(s, i).value)
  {
    hide TokensOk, LatestOk, AcceptedOk, DeliveredOk, StepCancel, SameIdentities, OpOk;
    var s' := StepCancel(s, i).value;
    CancelShape(s, i);
    CancelBounds(s, i);
    CancelLatest(s, s', i, Save);
    CancelLatest(s, s', i, Open);
    TokensSame(s, s');
    AcceptedSame(s, s');
    DeliveredSame(s, s');
  }

  lemma CancelBounds(s: State, i: nat)
    requires StepCancel(s, i).Some?
    ensures i < |s.ops|
  {}

  lemma CloseStep(s: State, tab: nat)
    requires Safe(s)
    ensures Safe(StepCloseTab(s, tab))
  {
    hide TokensOk, LatestOk, AcceptedOk, OpsOk, DeliveredOk;
    var s' := StepCloseTab(s, tab);
    LatestShrinks(s, s', Save);
    LatestShrinks(s, s', Open);
    TokensSame(s, s');
    AcceptedSame(s, s');
    SameDelivered(s, s');
  }

  /******* Every run *******/

  lemma SafeStep(s: State, e: Event)
    requires Safe(s) && Step(s, e).Some?
    ensures Safe(Step(s, e).value)
  {
    hide Alone, TokensOk, LatestOk, AcceptedOk, DeliveredOk;
    if e.DispatchSave? || e.DispatchOpen? {
      DispatchStep(s, e);
    } else if e.Complete? {
      CompleteStep(s, e.op);
    } else if e.ProcessPending? {
      ProcessStep(s);
    } else if e.Cancel? {
      CancelStep(s, e.op);
    } else if e.CloseTab? {
      CloseStep(s, e.tab);
    } else {
      if e.WorkerStores? || e.MonitorStores? {
        StoreAlone(s, e);
      } else if e.MonitorPolls? {
        PollAlone(s, e.op);
      } else if e.MonitorChecks? || e.MonitorWaits? {
        WaitAlone(s, e);
      } else if e.MonitorSwaps? || e.MonitorRepolls? {
        MonitorAlone(s, e);
      } else {
        WorkerAlone(s, e);
      }
      AloneSafe(s, Step(s, e).value, e.op);
    }
  }

  lemma {:induction false} RunSafe(s: State, events: seq<Event>)
    requires Safe(s) && Run(s, events).Some?
    ensures Safe(Run(s, events).value)
  {
    hide Step, Safe;
    if |events| > 0 {
      RunSafe(s, events[..|events| - 1]);
      SafeStep(Run(s, events[..|events| - 1]).value, events[|events| - 1]);
    }
  }

  lemma InitSafe(restored: set<nat>)
    ensures Safe(Init(restored))
  {}

  lemma AlwaysSafe(s: State)
    requires Reachable(s)
    ensures Safe(s)
  {
    hide Run, Safe;
    var restored: set<nat>, events: seq<Event> :| Run(Init(restored), events) == Some(s);
    InitSafe(restored);
    RunSafe(Init(restored), events);
  }

  /** Each request publishes at most one outcome, whoever wins the race for its flag. */
  lemma AtMostOneOutcome(s: State, i: nat)
    requires Reachable(s) && i < |s.ops|
    ensures s.ops[i].stores <= 1
    ensures s.ops[i].stores == 1 ==> s.ops[i].finished
    ensures QueuedOps(s.queue)[i] + multiset(s.consumed)[i] <= s.ops[i].stores
  {
    hide Reachable;
    AlwaysSafe(s);
    assert OpOk(s.ops[i]);
    assert Delivered(s)[i] == QueuedOps(s.queue)[i] + multiset(s.consumed)[i];
    if i in Delivered(s) { assert Delivered(s)[i] == 1; }
  }

  /** A result is accepted at most once, never after its cancellation, and never after a newer request for its tab. */
  lemma OnlyLatestAccepted(s: State, k: nat)
    requires Reachable(s) && k < |s.accepted|
    ensures var a := s.accepted[k];
            && !a.cancelled && a.op < a.at <= |s.ops| && s.ops[a.op].tab.Some?
            && (forall j | a.op < j < a.at :: !For(s.ops[j], s.ops[a.op].kind, s.ops[a.op].tab.value))
            && (forall l | 0 <= l < |s.accepted| && l != k :: s.accepted[l].op != a.op)
  {
    hide Reachable;
    AlwaysSafe(s);
    var a := s.accepted[k];
    forall l | 0 <= l < |s.accepted| && l != k ensures s.accepted[l].op != a.op {
      if l < k { assert s.accepted[l].op != s.accepted[k].op; } else { assert s.accepted[k].op != s.accepted[l].op; }
    }
  }
}
