/**
 Remote saves and opens as a state machine: each request has a worker thread, a
 monitor task and a progress notice with a cancel button, beside the window's own
 steps on the UI thread. The swap of the completion flag and the store of the
 outcome are separate steps.
 */
module RemoteModel {
  import opened Common

  datatype Kind = Save | Open

  /** What a finished operation delivers: its result, a directory listing, or an error. */
  datatype Outcome = Good | Listing | Bad

  datatype Worker =
    | NotStarted
    | Running
    | Ended(outcome: Outcome)
    | Publishing(outcome: Outcome)
    | Storing(outcome: Outcome)
    | WorkerDone

  datatype Monitor =
    | NotPolling
    | Polling
    | Checking
    | Waiting
    | TimingOut
    | StoringTimeout
    | Repolling
    | Completing(outcome: Outcome)
    | Notifying
    | MonitorDone

  /** One request; `stores` counts the outcomes it has published. */
  datatype Op = Op(
    kind: Kind,
    tab: Option<nat>,
    token: Option<nat>,
    finished: bool,
    slot: Option<Outcome>,
    cancelled: bool,
    worker: Worker,
    monitor: Monitor,
    stores: nat)

  datatype Queued = Queued(op: nat, tab: Option<nat>, token: Option<nat>, outcome: Outcome)

  /** A result accepted for an existing tab, when `at` requests had been made. */
  datatype Accepted = Accepted(op: nat, at: nat, cancelled: bool)

  datatype State = State(
    nextRequestId: nat,
    latestSave: map<nat, nat>,
    latestOpen: map<nat, nat>,
    pendingRestore: set<nat>,
    inflight: set<nat>,
    queue: seq<Queued>,
    ops: seq<Op>,
    accepted: seq<Accepted>,
    consumed: seq<nat>)

  datatype Event =
    | DispatchSave(tab: nat)
    | DispatchOpen(target: Option<nat>)
    | Spawn(op: nat)
    | WorkerEnds(op: nat, outcome: Outcome)
    | WorkerChecks(op: nat)
    | WorkerSwaps(op: nat)
    | WorkerStores(op: nat)
    | MonitorPolls(op: nat)
    | MonitorChecks(op: nat)
    | MonitorWaits(op: nat, late: bool)
    | MonitorSwaps(op: nat)
    | MonitorStores(op: nat)
    | MonitorRepolls(op: nat)
    | Complete(op: nat)
    | Cancel(op: nat)
    | ProcessPending
    | CloseTab(tab: nat)

  function Init(restored: set<nat>): State {
    State(1, map[], map[], restored, {}, [], [], [], [])
  }

  function WithOp(s: State, i: nat, op: Op): State
    requires i < |s.ops|
  {
    s.(ops := s.ops[i := op])
  }

  /******* Dispatch *******/

  function StepDispatchSave(s: State, tab: nat): State {
    s.(nextRequestId := s.nextRequestId + 1, latestSave := s.latestSave[tab := s.nextRequestId],
       ops := s.ops + [Op(Save, Some(tab), Some(s.nextRequestId), false, None, false, Running, Polling, 0)])
  }

  /** A restored tab is reloaded only while it waits and nothing is in flight for it. */
  function StepDispatchOpen(s: State, target: Option<nat>): Option<State> {
    match target
    case None => Some(s.(ops := s.ops + [Op(Open, None, None, false, None, false, NotStarted, NotPolling, 0)]))
    case Some(tab) =>
      if tab in s.pendingRestore && tab !in s.inflight then
        Some(s.(nextRequestId := s.nextRequestId + 1, latestOpen := s.latestOpen[tab := s.nextRequestId],
                ops := s.ops
                       + [Op(Open, target, Some(s.nextRequestId), false, None, false, NotStarted, NotPolling, 0)]))
      else None
  }

  /** The password is known: worker and monitor start. */
  function StepSpawn(s: State, i: nat): Option<State> {
    if i < |s.ops| && s.ops[i].worker.NotStarted? then
      var op := s.ops[i];
      Some(WithOp(s, i, op.(worker := Running, monitor := Polling))
           .(inflight := if op.tab.Some? then s.inflight + {op.tab.value} else s.inflight))
    else None
  }

  /******* Worker thread *******/

  function StepWorkerEnds(s: State, i: nat, outcome: Outcome): Option<State> {
    if i < |s.ops| && s.ops[i].worker.Running? then Some(WithOp(s, i, s.ops[i].(worker := Ended(outcome)))) else None
  }

  /** A cancelled worker discards its outcome and releases the monitor. */
  function StepWorkerChecks(s: State, i: nat): Option<State> {
    if i < |s.ops| && s.ops[i].worker.Ended? then
      var op := s.ops[i];
      Some(WithOp(s, i, if op.cancelled then op.(finished := true, worker := WorkerDone)
                        else op.(worker := Publishing(op.worker.outcome))))
    else None
  }

  function StepWorkerSwaps(s: State, i: nat): Option<State> {
    if i < |s.ops| && s.ops[i].worker.Publishing? then
      var op := s.ops[i];
      Some(WithOp(s, i, if op.finished then op.(worker := WorkerDone)
                        else op.(finished := true, worker := Storing(op.worker.outcome))))
    else None
  }

  /** Stores an outcome: a save in its slot, an open in the window's queue. */
  function Store(s: State, i: nat, op: Op, outcome: Outcome): State
    requires i < |s.ops|
  {
    if op.kind.Save?
    then WithOp(s, i, op.(slot := Some(outcome), stores := op.stores + 1))
    else WithOp(s, i, op.(stores := op.stores + 1)).(queue := s.queue + [Queued(i, op.tab, op.token, outcome)])
  }

  function StepWorkerStores(s: State, i: nat): Option<State> {
    if i < |s.ops| && s.ops[i].worker.Storing?
    then Some(Store(s, i, s.ops[i].(worker := WorkerDone), s.ops[i].worker.outcome))
    else None
  }

  /******* Monitor task *******/

  /** Each round of the monitor polls first, then reads the cancel flag, then the clock. */
  function StepMonitorPolls(s: State, i: nat): Option<State> {
    if i < |s.ops| && s.ops[i].monitor.Polling? then
      var op := s.ops[i];
      Some(WithOp(s, i,
                  if op.kind.Save? && op.slot.Some? then op.(slot := None, monitor := Completing(op.slot.value))
                  else if op.kind.Open? && op.finished then op.(monitor := Notifying)
                  else op.(monitor := Checking)))
    else None
  }

  function StepMonitorChecks(s: State, i: nat): Option<State> {
    if i < |s.ops| && s.ops[i].monitor.Checking?
    then Some(WithOp(s, i, s.ops[i].(monitor := if s.ops[i].cancelled then MonitorDone else Waiting)))
    else None
  }

  function StepMonitorWaits(s: State, i: nat, late: bool): Option<State> {
    if i < |s.ops| && s.ops[i].monitor.Waiting?
    then Some(WithOp(s, i, s.ops[i].(monitor := if late then TimingOut else Polling)))
    else None
  }

  function StepMonitorSwaps(s: State, i: nat): Option<State> {
    if i < |s.ops| && s.ops[i].monitor.TimingOut? then
      var op := s.ops[i];
      Some(WithOp(s, i, if op.finished then op.(monitor := Repolling)
                        else op.(finished := true, monitor := StoringTimeout)))
    else None
  }

  function StepMonitorStores(s: State, i: nat): Option<State> {
    if i < |s.ops| && s.ops[i].monitor.StoringTimeout?
    then Some(Store(s, i, s.ops[i].(monitor := Repolling), Bad))
    else None
  }

  function StepMonitorRepolls(s: State, i: nat): Option<State> {
    if i < |s.ops| && s.ops[i].monitor.Repolling? then
      var op := s.ops[i];
      Some(WithOp(s, i,
                  if op.kind.Save? && op.slot.Some? then op.(slot := None, monitor := Completing(op.slot.value))
                  else if op.kind.Open? && op.finished then op.(monitor := Notifying)
                  else op.(monitor := MonitorDone)))
    else None
  }

  /******* UI thread *******/

  function Tokens(s: State, kind: Kind): map<nat, nat> {
    if kind.Save? then s.latestSave else s.latestOpen
  }

  /** `handle_remote_save_result`: a stale result is ignored. */
  function AcceptSave(s: State, i: nat, outcome: Outcome): State
    requires i < |s.ops|
  {
    var op := s.ops[i];
    if op.tab.None? || op.token.None? || op.tab.value !in s.latestSave || s.latestSave[op.tab.value] != op.token.value
    then s
    else
      s.(latestSave := s.latestSave - {op.tab.value},
         accepted := s.accepted + [Accepted(i, |s.ops|, op.cancelled)],
         pendingRestore := if outcome.Good? then s.pendingRestore - {op.tab.value} else s.pendingRestore,
         inflight := if outcome.Good? then s.inflight - {op.tab.value} else s.inflight)
  }

  function StepComplete(s: State, i: nat): Option<State> {
    if i < |s.ops| && s.ops[i].monitor.Notifying? then Some(WithOp(s, i, s.ops[i].(monitor := MonitorDone)))
    else if i < |s.ops| && s.ops[i].monitor.Completing? then
      Some(AcceptSave(WithOp(s, i, s.ops[i].(monitor := MonitorDone)), i, s.ops[i].monitor.outcome))
    else None
  }

  /**
   Cancelling a save forgets it only if it is the latest; cancelling a reload forgets
   the tab's latest, whichever it is.
   */
  function StepCancel(s: State, i: nat): Option<State> {
    if i < |s.ops| && !s.ops[i].cancelled && !s.ops[i].monitor.NotPolling? && !s.ops[i].monitor.MonitorDone? then
      var op := s.ops[i];
      var marked := WithOp(s, i, op.(cancelled := true));
      if op.tab.None? then Some(marked)
      else if op.kind.Save? then
        Some(if op.token.Some? && op.tab.value in s.latestSave && s.latestSave[op.tab.value] == op.token.value
             then marked.(latestSave := s.latestSave - {op.tab.value})
             else marked)
      else Some(marked.(latestOpen := s.latestOpen - {op.tab.value}, inflight := s.inflight - {op.tab.value}))
    else None
  }

  /** One outcome of the queue: stale ones are skipped. */
  function ProcessOne(s: State, q: Queued): State {
    var seen := s.(consumed := s.consumed + [q.op]);
    if q.tab.None? then seen
    else
      var tab := q.tab.value;
      if q.token.Some? && (tab !in s.latestOpen || s.latestOpen[tab] != q.token.value) then seen
      else
        seen.(latestOpen := if q.token.Some? then s.latestOpen - {tab} else s.latestOpen,
              inflight := s.inflight - {tab},
              pendingRestore := if q.outcome.Good? then s.pendingRestore - {tab} else s.pendingRestore + {tab},
              accepted := s.accepted + [Accepted(q.op, |s.ops|, q.op < |s.ops| && s.ops[q.op].cancelled)])
  }

  function ProcessAll(s: State, outcomes: seq<Queued>): State {
    if |outcomes| == 0 then s else ProcessOne(ProcessAll(s, outcomes[..|outcomes| - 1]), outcomes[|outcomes| - 1])
  }

  /** Closing a tab forgets everything kept for it. */
  function StepCloseTab(s: State, tab: nat): State {
    s.(latestSave := s.latestSave - {tab}, latestOpen := s.latestOpen - {tab},
       pendingRestore := s.pendingRestore - {tab}, inflight := s.inflight - {tab})
  }

  function Step(s: State, e: Event): Option<State> {
    match e
    case DispatchSave(tab) => Some(StepDispatchSave(s, tab))
    case DispatchOpen(target) => StepDispatchOpen(s, target)
    case Spawn(i) => StepSpawn(s, i)
    case WorkerEnds(i, outcome) => StepWorkerEnds(s, i, outcome)
    case WorkerChecks(i) => StepWorkerChecks(s, i)
    case WorkerSwaps(i) => StepWorkerSwaps(s, i)
    case WorkerStores(i) => StepWorkerStores(s, i)
    case MonitorPolls(i) => StepMonitorPolls(s, i)
    case MonitorChecks(i) => StepMonitorChecks(s, i)
    case MonitorWaits(i, late) => StepMonitorWaits(s, i, late)
    case MonitorSwaps(i) => StepMonitorSwaps(s, i)
    case MonitorStores(i) => StepMonitorStores(s, i)
    case MonitorRepolls(i) => StepMonitorRepolls(s, i)
    case Complete(i) => StepComplete(s, i)
    case Cancel(i) => StepCancel(s, i)
    case ProcessPending => Some(ProcessAll(s.(queue := []), s.queue))
    case CloseTab(tab) => Some(StepCloseTab(s, tab))
  }

  function Run(s: State, events: seq<Event>): Option<State> {
    if |events| == 0 then Some(s)
    else
      var front := Run(s, events[..|events| - 1]);
      if front.None? then None else Step(front.value, events[|events| - 1])
  }

  ghost predicate Reachable(s: State) {
    exists restored: set<nat>, events: seq<Event> :: Run(Init(restored), events) == Some(s)
  }
}
