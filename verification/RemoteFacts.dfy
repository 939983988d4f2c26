/** What the window does with each delivered result, in terms of its tokens and the result alone. */
module RemoteFacts {
  import opened Common
  import opened RemoteModel

  /** The result belongs to an existing tab and to its latest reload, or to one without a token. */
  predicate Current(latest: map<nat, nat>, q: Queued) {
    q.tab.Some? && (q.token.Some? ==> q.tab.value in latest && latest[q.tab.value] == q.token.value)
  }

  /**
   A current result takes its tab's token and in-flight mark; a file ends the wait for a
   reload, a listing or an error renews it. Every other result changes none of these, and
   no result concerns another tab.
   */
  lemma DeliverMeans(s: State, q: Queued)
    ensures var s' := ProcessOne(s, q);
            && s'.consumed == s.consumed + [q.op] && s'.latestSave == s.latestSave && s'.ops == s.ops
            && (if Current(s.latestOpen, q) then
                  var tab := q.tab.value;
                  && tab !in s'.inflight && (q.token.Some? ==> tab !in s'.latestOpen)
                  && (tab in s'.pendingRestore <==> q.outcome.Listing? || q.outcome.Bad?)
                  && |s'.accepted| == |s.accepted| + 1 && s'.accepted[|s.accepted|].op == q.op
                  && s'.accepted[..|s.accepted|] == s.accepted
                else
                  && s'.inflight == s.inflight && s'.latestOpen == s.latestOpen && s'.pendingRestore == s.pendingRestore
                  && s'.accepted == s.accepted)
            && forall tab | q.tab != Some(tab) ::
                 && (tab in s'.inflight <==> tab in s.inflight)
                 && (tab in s'.pendingRestore <==> tab in s.pendingRestore)
                 && (tab in s'.latestOpen <==> tab in s.latestOpen)
                 && (tab in s.latestOpen ==> s'.latestOpen[tab] == s.latestOpen[tab])
  {}

  /** Every queued result is taken, once and in order. */
  lemma {:induction false} AllConsumed(s: State, outcomes: seq<Queued>)
    ensures var s' := ProcessAll(s, outcomes);
            && |s'.consumed| == |s.consumed| + |outcomes| && s.consumed <= s'.consumed
            && forall k | 0 <= k < |outcomes| :: s'.consumed[|s.consumed| + k] == outcomes[k].op
  {
    hide ProcessOne;
    if |outcomes| > 0 {
      AllConsumed(s, outcomes[..|outcomes| - 1]);
      DeliverMeans(ProcessAll(s, outcomes[..|outcomes| - 1]), outcomes[|outcomes| - 1]);
    }
  }

  /**
   The result of a save counts exactly while its token is the tab's latest, which it then
   takes; a success also ends the wait for a reload. No other tab is concerned.
   */
  lemma SaveMeans(s: State, i: nat)
    requires i < |s.ops| && s.ops[i].monitor.Completing? && s.ops[i].tab.Some? && s.ops[i].token.Some?
    ensures StepComplete(s, i).Some?
    ensures var s', tab := StepComplete(s, i).value, s.ops[i].tab.value;
            && s'.latestOpen == s.latestOpen && s'.queue == s.queue
            && (if tab in s.latestSave && s.latestSave[tab] == s.ops[i].token.value then
                  && s'.latestSave == s.latestSave - {tab} && |s'.accepted| == |s.accepted| + 1
                  && (s.ops[i].monitor.outcome == Good ==>
                        s'.pendingRestore == s.pendingRestore - {tab} && s'.inflight == s.inflight - {tab})
                  && (s.ops[i].monitor.outcome != Good ==>
                        s'.pendingRestore == s.pendingRestore && s'.inflight == s.inflight)
                else
                  && s'.latestSave == s.latestSave && s'.accepted == s.accepted
                  && s'.pendingRestore == s.pendingRestore && s'.inflight == s.inflight)
  {}

  /** A new request: nothing published, not cancelled, no outcome, under a token no request had before. */
  ghost predicate Unstarted(s: State, s': State, kind: Kind, tab: Option<nat>, op: Op) {
    && |s'.ops| == |s.ops| + 1 && s'.ops[..|s.ops|] == s.ops && s'.ops[|s.ops|] == op
    && op.kind == kind && op.tab == tab && !op.finished && op.slot.None? && !op.cancelled && op.stores == 0
    && (op.token.Some? <==> tab.Some?) && (tab.Some? ==> op.token == Some(s.nextRequestId))
    && s'.nextRequestId == s.nextRequestId + (if tab.Some? then 1 else 0)
    && s'.queue == s.queue && s'.accepted == s.accepted && s'.consumed == s.consumed
    && s'.pendingRestore == s.pendingRestore && s'.inflight == s.inflight
  }

  /** A save starts at once; its token becomes the latest of its tab. */
  lemma DispatchSaveMeans(s: State, tab: nat)
    ensures var s' := StepDispatchSave(s, tab);
            && |s'.ops| > 0 && var op := s'.ops[|s'.ops| - 1];
               && Unstarted(s, s', Save, Some(tab), op) && op.worker.Running? && op.monitor.Polling?
               && s'.latestSave == s.latestSave[tab := s.nextRequestId] && s'.latestOpen == s.latestOpen
  {}

  /**
   Any new tab may be opened; a tab is reloaded only while it awaits that and no reload
   of it is in flight. Both wait for the password.
   */
  lemma DispatchOpenMeans(s: State, target: Option<nat>)
    ensures StepDispatchOpen(s, target).Some? <==>
            (target.Some? ==> target.value in s.pendingRestore && target.value !in s.inflight)
    ensures StepDispatchOpen(s, target).Some? ==>
              var s' := StepDispatchOpen(s, target).value;
              && |s'.ops| > 0 && var op := s'.ops[|s'.ops| - 1];
                 && Unstarted(s, s', Open, target, op) && op.worker.NotStarted? && op.monitor.NotPolling?
                 && s'.latestSave == s.latestSave
                 && s'.latestOpen == if target.None? then s.latestOpen
                                     else s.latestOpen[target.value := s.nextRequestId]
  {}

  /** Once the password is known worker and monitor start, once, and a reload is marked in flight. */
  lemma SpawnMeans(s: State, i: nat)
    ensures Step(s, Spawn(i)).Some? <==> i < |s.ops| && s.ops[i].worker.NotStarted?
    ensures Step(s, Spawn(i)).Some? ==>
              var s' := Step(s, Spawn(i)).value;
              && s'.ops[i] == s.ops[i].(worker := Running, monitor := Polling)
              && forall tab :: tab in s'.inflight <==> tab in s.inflight || s.ops[i].tab == Some(tab)
  {}

  /**
   A request can be cancelled once, while its monitor runs. A cancelled save gives up the
   token of its tab only if that is its own; a cancelled reload gives up whatever token and
   in-flight mark its tab has. No other tab is concerned, and nothing already delivered.
   */
  lemma CancelMeans(s: State, i: nat)
    ensures Step(s, Cancel(i)).Some? <==>
            i < |s.ops| && !s.ops[i].cancelled && s.ops[i].monitor != NotPolling && s.ops[i].monitor != MonitorDone
    ensures Step(s, Cancel(i)).Some? ==>
              var s', op := Step(s, Cancel(i)).value, s.ops[i];
              && s'.ops[i] == op.(cancelled := true)
              && s'.queue == s.queue && s'.accepted == s.accepted && s'.pendingRestore == s.pendingRestore
              && (forall tab :: tab in s'.inflight <==>
                    tab in s.inflight && !(op.kind == Open && op.tab == Some(tab)))
              && (forall tab :: tab in s'.latestOpen <==>
                    tab in s.latestOpen && !(op.kind == Open && op.tab == Some(tab)))
              && (forall tab :: tab in s'.latestSave <==>
                    tab in s.latestSave
                    && !(op.kind == Save && op.tab == Some(tab) && op.token == Some(s.latestSave[tab])))
              && (forall tab | tab in s'.latestOpen :: s'.latestOpen[tab] == s.latestOpen[tab])
              && (forall tab | tab in s'.latestSave :: s'.latestSave[tab] == s.latestSave[tab])
  {}

  /**
   A finished worker discards a cancelled outcome and still releases the monitor;
   otherwise it publishes unless the monitor was first.
   */
  lemma WorkerMeans(s: State, i: nat)
    requires i < |s.ops|
    ensures s.ops[i].worker.Ended? ==>
              && Step(s, WorkerChecks(i)).Some?
              && var op, op' := s.ops[i], Step(s, WorkerChecks(i)).value.ops[i];
                 && op' == op.(worker := op'.worker, finished := op.cancelled || op.finished)
                 && op'.worker == if op.cancelled then WorkerDone else Publishing(op.worker.outcome)
    ensures s.ops[i].worker.Publishing? ==>
              && Step(s, WorkerSwaps(i)).Some?
              && var op, op' := s.ops[i], Step(s, WorkerSwaps(i)).value.ops[i];
                 && op' == op.(worker := op'.worker, finished := true)
                 && op'.worker == if op.finished then WorkerDone else Storing(op.worker.outcome)
  {}

  /** The winner stores its outcome: a save where its monitor looks, an open in the window's queue. */
  lemma StoreMeans(s: State, i: nat)
    requires i < |s.ops| && s.ops[i].worker.Storing?
    ensures Step(s, WorkerStores(i)).Some?
    ensures var op, s' := s.ops[i], Step(s, WorkerStores(i)).value;
            && s'.ops[i].stores == op.stores + 1 && s'.ops[i].worker.WorkerDone?
            && s'.ops[i].slot == (if op.kind == Save then Some(op.worker.outcome) else op.slot)
            && s'.queue == s.queue + (if op.kind == Save then [] else [Queued(i, op.tab, op.token, op.worker.outcome)])
  {
    if s.ops[i].kind.Save? { assert s.queue + [] == s.queue; }
  }

  /**
   A monitor that looks finds a save's outcome in its slot, and an open finished by its
   flag; else it goes on, or gives up behind its timeout.
   */
  lemma PollMeans(s: State, i: nat)
    requires i < |s.ops|
    ensures s.ops[i].monitor.Polling? || s.ops[i].monitor.Repolling? ==>
              var looks := if s.ops[i].monitor.Polling? then MonitorPolls(i) else MonitorRepolls(i);
              var op := s.ops[i];
              && Step(s, looks).Some?
              && var op' := Step(s, looks).value.ops[i];
                 && op'.finished == op.finished && op'.worker == op.worker && op'.cancelled == op.cancelled
                 && (op.kind == Save && op.slot.Some? ==> op'.monitor == Completing(op.slot.value) && op'.slot.None?)
                 && (op.kind == Open && op.finished ==> op'.monitor == Notifying && op'.slot == op.slot)
                 && ((op.kind == Save && op.slot.None?) || (op.kind == Open && !op.finished) ==>
                       op'.slot == op.slot && op'.monitor == if op.monitor.Polling? then Checking else MonitorDone)
    ensures s.ops[i].monitor.Checking? ==>
              && Step(s, MonitorChecks(i)).Some?
              && Step(s, MonitorChecks(i)).value.ops[i].monitor == if s.ops[i].cancelled then MonitorDone else Waiting
    ensures s.ops[i].monitor.Waiting? ==> forall late ::
              && Step(s, MonitorWaits(i, late)).Some?
              && Step(s, MonitorWaits(i, late)).value.ops[i].monitor == if late then TimingOut else Polling
    ensures s.ops[i].monitor.TimingOut? ==>
              && Step(s, MonitorSwaps(i)).Some? && Step(s, MonitorSwaps(i)).value.ops[i].finished
              && Step(s, MonitorSwaps(i)).value.ops[i].monitor
                 == if s.ops[i].finished then Repolling else StoringTimeout
  {}

  /** Closing a tab leaves nothing of it, and everything of the others. */
  lemma CloseMeans(s: State, tab: nat)
    ensures var s' := StepCloseTab(s, tab);
            && tab !in s'.latestSave && tab !in s'.latestOpen && tab !in s'.pendingRestore && tab !in s'.inflight
            && s'.queue == s.queue && s'.ops == s.ops && s'.accepted == s.accepted
            && forall t | t != tab ::
                 && (t in s'.latestSave <==> t in s.latestSave) && (t in s'.latestOpen <==> t in s.latestOpen)
                 && (t in s.latestSave ==> s'.latestSave[t] == s.latestSave[t])
                 && (t in s.latestOpen ==> s'.latestOpen[t] == s.latestOpen[t])
                 && (t in s'.pendingRestore <==> t in s.pendingRestore) && (t in s'.inflight <==> t in s.inflight)
  {}
}
