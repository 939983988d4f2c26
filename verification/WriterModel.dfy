/**
 The background writer as a state machine: any number of submitting threads,
 one writer thread, a one-slot mailbox and a bounded channel. Every field
 access that another thread can come between is a step of its own.

 Snapshots are numbered in the order they are submitted, from 1.
 */
module WriterModel {
  import opened Common

  const CHANNEL_CAPACITY: nat := 16

  datatype Message = Blocking(thread: nat, n: nat) | MailboxFilled

  /** `Signalling` is between `put` and `try_send`; `Awaiting` is between `send` and the reply. */
  datatype Submitter = Idle | Signalling | Awaiting(n: nat)

  /** Where the writer thread is, with what it holds. */
  datatype Hand =
    | Looping
    | ReceivingUntimed
    | ReceivingTimed(deadline: int)
    | Flushing
    | TakenAsync(n: nat, start: int)
    | Handling(thread: nat, n: nat)
    | TakenBlocking(thread: nat, n: nat, start: int)
    | Replying(thread: nat, n: nat, ok: bool)
    | ShutdownFlushing
    | ShutdownTaken(n: nat, start: int)
    | Done

  datatype Kind = AsyncWrite | BlockingWrite | ShutdownWrite

  /** One attempted write, failed ones included. */
  datatype Write = Write(n: nat, kind: Kind, start: int, end: int, ok: bool)

  datatype State = State(
    throttle: nat,
    now: int,
    submitted: nat,
    pcs: map<nat, Submitter>,
    mailbox: Option<nat>,
    channel: seq<Message>,
    hand: Hand,
    replies: map<nat, bool>,
    lastWriteAt: Option<int>,
    db: Option<nat>,
    log: seq<Write>,
    closed: bool)

  datatype Event =
    | Tick(elapsed: nat)
    | Put(thread: nat)
    | Signal(thread: nat)
    | SendBlocking(thread: nat)
    | Return(thread: nat)
    | Close
    | CheckMailbox
    | Receive
    | Timeout
    | Disconnected
    | Take
    | WriteDone(ok: bool)
    | Reply

  function Init(throttle: nat, now: int): State {
    State(throttle, now, 0, map[], None, [], Looping, map[], None, None, [], false)
  }

  function Pc(s: State, t: nat): Submitter {
    if t in s.pcs then s.pcs[t] else Idle
  }

  /** `save_async`: store the snapshot, replacing any snapshot already waiting. */
  function StepPut(s: State, t: nat): Option<State> {
    if Pc(s, t).Idle? && !s.closed
    then Some(s.(submitted := s.submitted + 1, mailbox := Some(s.submitted + 1), pcs := s.pcs[t := Signalling]))
    else None
  }

  /** `save_async`: wake the writer; a full channel already holds a wakeup. */
  function StepSignal(s: State, t: nat): Option<State> {
    if !Pc(s, t).Signalling? then None
    else if s.hand.Done? then Some(s.(mailbox := None, pcs := s.pcs[t := Idle]))
    else if |s.channel| < CHANNEL_CAPACITY
    then Some(s.(channel := s.channel + [MailboxFilled], pcs := s.pcs[t := Idle]))
    else Some(s.(pcs := s.pcs[t := Idle]))
  }

  /** `save_blocking`: enqueue the snapshot once the channel has room. */
  function StepSendBlocking(s: State, t: nat): Option<State> {
    if Pc(s, t).Idle? && !s.closed && |s.channel| < CHANNEL_CAPACITY
    then Some(s.(submitted := s.submitted + 1, channel := s.channel + [Blocking(t, s.submitted + 1)],
                 pcs := s.pcs[t := Awaiting(s.submitted + 1)]))
    else None
  }

  /** `save_blocking`: return the reply. */
  function StepReturn(s: State, t: nat): Option<State> {
    if Pc(s, t).Awaiting? && t in s.replies
    then Some(s.(pcs := s.pcs[t := Idle], replies := s.replies - {t}))
    else None
  }

  /** The handle is dropped; no call can be running on it. */
  function StepClose(s: State): Option<State> {
    if forall t | t in s.pcs :: s.pcs[t].Idle? then Some(s.(closed := true)) else None
  }

  /** `mailbox_deadline`, and the choice between the two receive calls. */
  function StepCheckMailbox(s: State): Option<State> {
    if !s.hand.Looping? then None
    else if s.mailbox.None? then Some(s.(hand := ReceivingUntimed))
    else Some(s.(hand := ReceivingTimed(if s.lastWriteAt.Some? then s.lastWriteAt.value + s.throttle else s.now)))
  }

  function StepReceive(s: State): Option<State> {
    if (s.hand.ReceivingUntimed? || s.hand.ReceivingTimed?) && s.channel != []
    then Some(s.(channel := s.channel[1..],
                 hand := if s.channel[0].Blocking? then Handling(s.channel[0].thread, s.channel[0].n) else Looping))
    else None
  }

  function StepTimeout(s: State): Option<State> {
    if s.hand.ReceivingTimed? && s.hand.deadline <= s.now then Some(s.(hand := Flushing)) else None
  }

  /** The channel reports disconnection only once it is empty. */
  function StepDisconnected(s: State): Option<State> {
    if (s.hand.ReceivingUntimed? || s.hand.ReceivingTimed?) && s.channel == [] && s.closed
    then Some(s.(hand := ShutdownFlushing))
    else None
  }

  /** `mailbox.take()`, at each of its three call sites. */
  function StepTake(s: State): Option<State> {
    match s.hand
    case Flushing =>
      Some(s.(mailbox := None, hand := if s.mailbox.Some? then TakenAsync(s.mailbox.value, s.now) else Looping))
    case Handling(t, n) => Some(s.(mailbox := None, hand := TakenBlocking(t, n, s.now)))
    case ShutdownFlushing =>
      Some(s.(mailbox := None, hand := if s.mailbox.Some? then ShutdownTaken(s.mailbox.value, s.now) else Done))
    case _ => None
  }

  function Recorded(s: State, n: nat, kind: Kind, start: int, ok: bool, hand: Hand): State {
    s.(log := s.log + [Write(n, kind, start, s.now, ok)], lastWriteAt := Some(s.now),
       db := if ok then Some(n) else s.db, hand := hand)
  }

  /** `write`: a failed write is recorded like a successful one. */
  function StepWriteDone(s: State, ok: bool): Option<State> {
    match s.hand
    case TakenAsync(n, start) => Some(Recorded(s, n, AsyncWrite, start, ok, Looping))
    case TakenBlocking(t, n, start) => Some(Recorded(s, n, BlockingWrite, start, ok, Replying(t, n, ok)))
    case ShutdownTaken(n, start) => Some(Recorded(s, n, ShutdownWrite, start, ok, Done))
    case _ => None
  }

  function StepReply(s: State): Option<State> {
    if s.hand.Replying? then Some(s.(replies := s.replies[s.hand.thread := s.hand.ok], hand := Looping)) else None
  }

  /** The state after an event, if the event can happen. */
  function Step(s: State, e: Event): Option<State> {
    match e
    case Tick(elapsed) => Some(s.(now := s.now + elapsed))
    case Put(t) => StepPut(s, t)
    case Signal(t) => StepSignal(s, t)
    case SendBlocking(t) => StepSendBlocking(s, t)
    case Return(t) => StepReturn(s, t)
    case Close => StepClose(s)
    case CheckMailbox => StepCheckMailbox(s)
    case Receive => StepReceive(s)
    case Timeout => StepTimeout(s)
    case Disconnected => StepDisconnected(s)
    case Take => StepTake(s)
    case WriteDone(ok) => StepWriteDone(s, ok)
    case Reply => StepReply(s)
  }

  /** The state after a whole run, if every event of it can happen in turn. */
  function Run(s: State, events: seq<Event>): Option<State> {
    if |events| == 0 then Some(s)
    else
      var front := Run(s, events[..|events| - 1]);
      if front.None? then None else Step(front.value, events[|events| - 1])
  }

  /** Some interleaving leads from start-up to `s`. */
  ghost predicate Reachable(s: State) {
    exists throttle: nat, now: int, events: seq<Event> :: Run(Init(throttle, now), events) == Some(s)
  }
}
