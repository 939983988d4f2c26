/** The window's request bookkeeping, and the flag and slot a request publishes through. */
module RemoteWindow {
  import opened Common
  import opened RemoteModel

  /** What worker and monitor of one save share: request `i` of model state `m`. */
  class SaveCompletion {
    var finished: bool
    var slot: Option<Outcome>

    constructor ()
      ensures !finished && slot == None
    {
      finished, slot := false, None;
    }

    ghost predicate Matches(m: State, i: nat)
      reads this
    {
      i < |m.ops| && m.ops[i].kind.Save? && m.ops[i].finished == finished && m.ops[i].slot == slot
    }

    /** The atomic swap of the flag: the first to come wins, be it the worker or the timed-out monitor. */
    method Swap(ghost m: State, ghost i: nat) returns (won: bool)
      requires Matches(m, i)
      modifies `finished
      ensures won == !old(finished) && finished
      ensures m.ops[i].worker.Publishing? ==>
                && Step(m, WorkerSwaps(i)).Some? && Matches(Step(m, WorkerSwaps(i)).value, i)
                && Step(m, WorkerSwaps(i)).value.ops[i].worker
                   == (if won then Storing(m.ops[i].worker.outcome) else WorkerDone)
      ensures m.ops[i].monitor.TimingOut? ==>
                && Step(m, MonitorSwaps(i)).Some? && Matches(Step(m, MonitorSwaps(i)).value, i)
                && Step(m, MonitorSwaps(i)).value.ops[i].monitor == (if won then StoringTimeout else Repolling)
    {
      won := !finished;
      finished := true;
    }

    /** The store of the winner's outcome, a step of its own: other steps may come between. */
    method StoreOutcome(outcome: Outcome, ghost m: State, ghost i: nat)
      requires Matches(m, i)
      modifies `slot
      ensures slot == Some(outcome)
      ensures m.ops[i].worker == Storing(outcome) ==>
                && Step(m, WorkerStores(i)).Some? && Matches(Step(m, WorkerStores(i)).value, i)
                && Step(m, WorkerStores(i)).value.ops[i].worker == WorkerDone
      ensures m.ops[i].monitor.StoringTimeout? && outcome == Bad ==>
                && Step(m, MonitorStores(i)).Some? && Matches(Step(m, MonitorStores(i)).value, i)
                && Step(m, MonitorStores(i)).value.ops[i].monitor == Repolling
    {
      slot := Some(outcome);
    }

    /** Publishes the worker's outcome unless another one was published before: both steps, undisturbed. */
    method Publish(outcome: Outcome, ghost m: State, ghost i: nat) returns (accepted: bool)
      requires Matches(m, i) && m.ops[i].worker == Publishing(outcome)
      modifies this
      ensures finished && accepted == !old(finished)
      ensures slot == if accepted then Some(outcome) else old(slot)
      ensures var swapped := Step(m, WorkerSwaps(i)).value;
              Matches(if accepted then Step(swapped, WorkerStores(i)).value else swapped, i)
    {
      accepted := Swap(m, i);
      if accepted { StoreOutcome(outcome, Step(m, WorkerSwaps(i)).value, i); }
    }

    /** The monitor takes the outcome, once, be it in a round of its loop or after its timeout. */
    method Poll(ghost m: State, ghost i: nat) returns (outcome: Option<Outcome>)
      requires Matches(m, i)
      modifies `slot
      ensures outcome == old(slot) && slot == None
      ensures m.ops[i].monitor.Polling? ==>
                && Step(m, MonitorPolls(i)).Some? && Matches(Step(m, MonitorPolls(i)).value, i)
                && Step(m, MonitorPolls(i)).value.ops[i].monitor
                   == (if outcome.Some? then Completing(outcome.value) else Checking)
      ensures m.ops[i].monitor.Repolling? ==>
                && Step(m, MonitorRepolls(i)).Some? && Matches(Step(m, MonitorRepolls(i)).value, i)
                && Step(m, MonitorRepolls(i)).value.ops[i].monitor
                   == (if outcome.Some? then Completing(outcome.value) else MonitorDone)
    {
      outcome, slot := slot, None;
    }
  }

  class Requests {
    var nextRemoteRequestId: nat
    var latestSave: map<nat, nat>
    var latestOpen: map<nat, nat>
    var pendingRestore: set<nat>
    var inflight: set<nat>
    var pendingRemoteOpen: seq<Queued>

    constructor (restored: set<nat>)
      ensures Matches(Init(restored))
    {
      nextRemoteRequestId, latestSave, latestOpen, pendingRestore := 1, map[], map[], restored;
      inflight, pendingRemoteOpen := {}, [];
    }

    ghost predicate Matches(m: State)
      reads this
    {
      && m.nextRequestId == nextRemoteRequestId && m.latestSave == latestSave && m.latestOpen == latestOpen
      && m.pendingRestore == pendingRestore && m.inflight == inflight && m.queue == pendingRemoteOpen
    }

    /** Hands out the token of a new save; fewer than 2^64 requests are made. */
    method DispatchSave(tab: nat, ghost m: State) returns (requestId: nat)
      requires Matches(m) && nextRemoteRequestId < U64_MAX
      modifies this
      ensures requestId == old(nextRemoteRequestId) && Matches(Step(m, Event.DispatchSave(tab)).value)
    {
      requestId := nextRemoteRequestId;
      nextRemoteRequestId := (nextRemoteRequestId + 1) % (U64_MAX + 1);
      latestSave := latestSave[tab := requestId];
    }

    /** Hands out the token of a reload of an existing tab. */
    method DispatchReload(tab: nat, ghost m: State) returns (requestId: nat)
      requires Matches(m) && nextRemoteRequestId < U64_MAX && tab in pendingRestore && tab !in inflight
      modifies this
      ensures requestId == old(nextRemoteRequestId)
      ensures Step(m, DispatchOpen(Some(tab))).Some? && Matches(Step(m, DispatchOpen(Some(tab))).value)
    {
      requestId := nextRemoteRequestId;
      nextRemoteRequestId := (nextRemoteRequestId + 1) % (U64_MAX + 1);
      latestOpen := latestOpen[tab := requestId];
    }

    method CancelSave(tab: nat, requestId: nat, ghost i: nat, ghost m: State)
      requires Matches(m) && StepCancel(m, i).Some? && m.ops[i].kind.Save?
      requires m.ops[i].tab == Some(tab) && m.ops[i].token == Some(requestId)
      modifies this
      ensures Matches(Step(m, Cancel(i)).value)
    {
      if tab in latestSave && latestSave[tab] == requestId {
        latestSave := latestSave - {tab};
      }
    }

    method CancelReload(tab: nat, ghost i: nat, ghost m: State)
      requires Matches(m) && StepCancel(m, i).Some? && m.ops[i].kind.Open? && m.ops[i].tab == Some(tab)
      modifies this
      ensures Matches(Step(m, Cancel(i)).value)
    {
      latestOpen := latestOpen - {tab};
      inflight := inflight - {tab};
    }

    /** Applies a save result unless it is stale; tells whether it was applied. */
    method HandleRemoteSaveResult(tab: nat, requestId: nat, outcome: Outcome, ghost i: nat, ghost m: State)
      returns (applied: bool)
      requires Matches(m) && i < |m.ops| && m.ops[i].monitor == Completing(outcome)
      requires m.ops[i].tab == Some(tab) && m.ops[i].token == Some(requestId)
      modifies this
      ensures applied <==> tab in old(latestSave) && old(latestSave)[tab] == requestId
      ensures Step(m, Complete(i)).Some? && Matches(Step(m, Complete(i)).value)
      ensures |Step(m, Complete(i)).value.accepted| == |m.accepted| + if applied then 1 else 0
    {
      if tab !in latestSave || latestSave[tab] != requestId { return false; }
      latestSave := latestSave - {tab};
      if outcome.Good? {
        pendingRestore := pendingRestore - {tab};
        inflight := inflight - {tab};
      }
      return true;
    }

    /** Drains the queue of opens; lists the requests whose results go to existing tabs, in order. */
    method ProcessPendingRemoteFiles(ghost m: State) returns (applied: seq<nat>)
      requires Matches(m)
      modifies this
      ensures Matches(Step(m, ProcessPending).value) && pendingRemoteOpen == []
      ensures |Step(m, ProcessPending).value.accepted| == |m.accepted| + |applied|
      ensures forall k | 0 <= k < |applied| :: Step(m, ProcessPending).value.accepted[|m.accepted| + k].op == applied[k]
    {
      hide ProcessOne;
      var outcomes := pendingRemoteOpen;
      pendingRemoteOpen := [];
      applied := [];
      ghost var start := m.(queue := []);
      ghost var done := start;
      for i := 0 to |outcomes|
        invariant done == ProcessAll(start, outcomes[..i]) && Matches(done)
        invariant pendingRemoteOpen == [] && |done.accepted| == |m.accepted| + |applied|
        invariant forall k | 0 <= k < |applied| :: done.accepted[|m.accepted| + k].op == applied[k]
      {
        assert outcomes[..i + 1][..i] == outcomes[..i];
        var took := ProcessOutcome(outcomes[i], done);
        applied := if took then applied + [outcomes[i].op] else applied;
        done := ProcessOne(done, outcomes[i]);
      }
      assert outcomes[..|outcomes|] == outcomes;
    }

    /** One outcome of the queue; tells whether it went to an existing tab. */
    method ProcessOutcome(outcome: Queued, ghost m: State) returns (took: bool)
      requires Matches(m)
      modifies this
      ensures Matches(ProcessOne(m, outcome)) && pendingRemoteOpen == old(pendingRemoteOpen)
      ensures took ==> |ProcessOne(m, outcome).accepted| == |m.accepted| + 1
                       && ProcessOne(m, outcome).accepted[|m.accepted|].op == outcome.op
                       && m.accepted <= ProcessOne(m, outcome).accepted
      ensures !took ==> ProcessOne(m, outcome).accepted == m.accepted
    {
      if outcome.tab.None? { return false; }
      var tab := outcome.tab.value;
      if outcome.token.Some? && (tab !in latestOpen || latestOpen[tab] != outcome.token.value) { return false; }
      if outcome.token.Some? { latestOpen := latestOpen - {tab}; }
      inflight := inflight - {tab};
      pendingRestore := if outcome.outcome.Good? then pendingRestore - {tab} else pendingRestore + {tab};
      return true;
    }

    method CloseTab(tab: nat, ghost m: State)
      requires Matches(m)
      modifies this
      ensures Matches(Step(m, Event.CloseTab(tab)).value)
    {
      latestSave, latestOpen := latestSave - {tab}, latestOpen - {tab};
      pendingRestore, inflight := pendingRestore - {tab}, inflight - {tab};
    }
  }
}
