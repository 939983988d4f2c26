/** The writer always finishes what it was given, and why one submitting thread is assumed. */
module WriterProgress {
  import opened Common
  import opened WriterModel
  import opened WriterSafety
  import opened WriterOrder

  function Weight(hand: Hand): nat {
    match hand
    case Looping => 3
    case ReceivingUntimed => 2
    case ReceivingTimed(_) => 2
    case Flushing => 1
    case TakenAsync(_, _) => 4
    case Handling(_, _) => 7
    case TakenBlocking(_, _, _) => 6
    case Replying(_, _, _) => 5
    case ShutdownFlushing => 1
    case ShutdownTaken(_, _) => 4
    case Done => 0
  }

  /** What is left to do: queued messages, a waiting snapshot, the current iteration. */
  function Work(s: State): nat {
    6 * |s.channel| + (if s.mailbox.Some? then 5 else 0) + Weight(s.hand)
  }

  /** The writer waits for a message, or has exited, with nothing left to write. */
  predicate Resting(s: State) {
    s.channel == [] && s.mailbox.None? && (s.hand.ReceivingUntimed? || s.hand.Done?)
  }

  /** No thread is between storing a snapshot and waking the writer. */
  ghost predicate Quiet(s: State) {
    forall t :: !Pc(s, t).Signalling?
  }

  predicate ByWriter(e: Event) {
    !Caller(e) && !e.Close?
  }

  /** No further call begins; calls already past their hand-over only wake the writer. */
  predicate Draining(e: Event) {
    ByWriter(e) || e.Signal?
  }

  function NextEvent(s: State): Event {
    match s.hand
    case Looping => CheckMailbox
    case ReceivingUntimed => if s.channel != [] then Receive else Disconnected
    case ReceivingTimed(deadline) => if s.channel != [] then Receive else Timeout
    case Flushing => Take
    case Handling(_, _) => Take
    case ShutdownFlushing => Take
    case Replying(_, _, _) => Reply
    case _ => WriteDone(true)
  }

  /** Once time has passed, the writer's next step exists and leaves less to do. */
  lemma Progress(s: State)
    requires Safe(s) && Quiet(s) && !Resting(s)
    ensures var waited := s.(now := s.now + Waiting(s));
            Step(waited, NextEvent(s)).Some? && Work(Step(waited, NextEvent(s)).value) < Work(s)
  {
    hide TimesOk, Stored;
  }

  lemma WriterKeeps(s: State, e: Event)
    requires ByWriter(e) && Step(s, e).Some?
    ensures Step(s, e).value.pcs == s.pcs && Step(s, e).value.submitted == s.submitted
    ensures WritesSucceed(s) && (e.WriteDone? ==> e.ok) ==> WritesSucceed(Step(s, e).value)
  {}

  lemma RunOne(s: State, events: seq<Event>, e: Event)
    ensures Run(s, events).Some? ==> Run(s, events + [e]) == Step(Run(s, events).value, e)
  {
    assert (events + [e])[..|events|] == events;
  }

  lemma SafeStep(s: State, e: Event)
    requires Safe(s) && Step(s, e).Some?
    ensures Safe(Step(s, e).value)
  {
    hide Awake, TimesOk, Shutdown, Stored, Step;
    AwakeStep(s, e);
    TimesStep(s, e);
    ShutdownStep(s, e);
    StoredStep(s, e);
  }

  function Waiting(s: State): nat {
    if s.hand.ReceivingTimed? && s.now < s.hand.deadline then s.hand.deadline - s.now else 0
  }

  /** One writer step of a drain, with the wait before it. */
  lemma DrainStep(s: State, events: seq<Event>, mid: State) returns (more: seq<Event>, next: State)
    requires Run(s, events) == Some(mid) && Safe(mid) && Quiet(mid) && !Resting(mid)
    ensures Run(s, more) == Some(next) && Safe(next) && Work(next) < Work(mid)
    ensures next.pcs == mid.pcs && next.submitted == mid.submitted
    ensures WritesSucceed(mid) ==> WritesSucceed(next)
    ensures (forall e | e in events :: Draining(e)) ==> forall e | e in more :: Draining(e)
  {
    hide Step, Run, Safe, Work, Resting, Quiet, WritesSucceed;
    var tick, e := Tick(Waiting(mid)), NextEvent(mid);
    Progress(mid);
    RunOne(s, events, tick);
    TickSteps(mid, Waiting(mid));
    var waited := mid.(now := mid.now + Waiting(mid));
    RunOne(s, events + [tick], e);
    SafeStep(mid, tick);
    SafeStep(waited, e);
    next := Step(waited, e).value;
    WriterKeeps(mid, tick);
    WriterKeeps(waited, e);
    more := events + [tick] + [e];
  }

  lemma TickSteps(s: State, elapsed: nat)
    ensures Step(s, Tick(elapsed)) == Some(s.(now := s.now + elapsed))
  {}

  lemma StillQuiet(s: State, s': State)
    requires Quiet(s) && s'.pcs == s.pcs
    ensures Quiet(s')
  {
    forall t ensures !Pc(s', t).Signalling? { assert Pc(s', t) == Pc(s, t); }
  }

  function Signallers(s: State): set<nat> {
    set t | t in s.pcs && s.pcs[t].Signalling?
  }

  lemma SignalOne(s: State, t: nat)
    requires Safe(s) && t in Signallers(s)
    ensures StepSignal(s, t).Some?
    ensures var s' := StepSignal(s, t).value;
            && s'.submitted == s.submitted && s'.log == s.log && s'.pcs.Keys == s.pcs.Keys
            && Signallers(s') == Signallers(s) - {t} && Step(s, Signal(t)) == StepSignal(s, t)
  {
    hide TimesOk, Stored;
  }

  /** Every thread between storing its snapshot and waking the writer does the latter. */
  lemma SignalAll(s: State) returns (events: seq<Event>, mid: State)
    requires Safe(s)
    ensures Run(s, events) == Some(mid) && Safe(mid) && Quiet(mid)
    ensures mid.submitted == s.submitted && mid.log == s.log && mid.pcs.Keys == s.pcs.Keys
    ensures forall e | e in events :: Draining(e)
  {
    events, mid := [], s;
    while Signallers(mid) != {}
      invariant Run(s, events) == Some(mid) && Safe(mid)
      invariant mid.submitted == s.submitted && mid.log == s.log && mid.pcs.Keys == s.pcs.Keys
      invariant forall e | e in events :: Draining(e)
      decreases |Signallers(mid)|
    {
      hide Step, Run, Safe, Signallers;
      Inhabited(Signallers(mid));
      var t: nat :| t in Signallers(mid);
      SignalOne(mid, t);
      SafeStep(mid, Signal(t));
      RunOne(s, events, Signal(t));
      events, mid := events + [Signal(t)], Step(mid, Signal(t)).value;
    }
    assert Quiet(mid) by { AllSignalled(mid); }
  }

  lemma AllSignalled(s: State)
    requires Signallers(s) == {}
    ensures Quiet(s)
  {
    forall t ensures !Pc(s, t).Signalling? {
      if t in s.pcs { assert t !in Signallers(s); }
    }
  }

  /**
   From any reachable state the writer reaches rest without a further call beginning:
   no step of it can block for good.
   */
  lemma Drain(s: State) returns (events: seq<Event>)
    requires Reachable(s)
    ensures forall e | e in events :: Draining(e)
    ensures Run(s, events).Some? && Resting(Run(s, events).value)
    ensures Run(s, events).value.pcs.Keys == s.pcs.Keys && Run(s, events).value.submitted == s.submitted
    ensures WritesSucceed(s) ==> WritesSucceed(Run(s, events).value)
  {
    hide Reachable, Step, Run, Safe, Work, Resting, WritesSucceed, Draining, Quiet;
    AlwaysSafe(s);
    var mid;
    events, mid := SignalAll(s);
    SameLogSucceeds(s, mid);
    while !Resting(mid)
      invariant Run(s, events) == Some(mid) && Safe(mid) && Quiet(mid)
      invariant mid.pcs.Keys == s.pcs.Keys && mid.submitted == s.submitted
      invariant WritesSucceed(s) ==> WritesSucceed(mid)
      invariant forall e | e in events :: Draining(e)
      decreases Work(mid)
    {
      var before := mid;
      events, mid := DrainStep(s, events, mid);
      StillQuiet(before, mid);
    }
  }

  lemma SameLogSucceeds(s: State, s': State)
    requires s'.log == s.log
    ensures WritesSucceed(s) ==> WritesSucceed(s')
  {}

  /** With one submitting thread, the newest snapshot is in the database once the writer rests. */
  lemma EventuallyStored(s: State) returns (events: seq<Event>)
    requires Reachable(s) && Sole(s) && WritesSucceed(s) && s.submitted > 0
    ensures forall e | e in events :: Draining(e)
    ensures Run(s, events).Some? && Run(s, events).value.db == Some(s.submitted)
  {
    hide Reachable, Run, Step, WritesSucceed, Draining;
    events := Drain(s);
    ReachableRun(s, events);
    NothingLost(Run(s, events).value);
  }

  lemma {:induction false} RunJoin(s: State, first: seq<Event>, second: seq<Event>)
    requires Run(s, first).Some?
    ensures Run(s, first + second) == Run(Run(s, first).value, second)
  {
    hide Step;
    if |second| == 0 {
      assert first + second == first;
    } else {
      var front := second[..|second| - 1];
      RunJoin(s, first, front);
      assert (first + second)[..|first + second| - 1] == first + front;
    }
  }

  lemma ReachableRun(s: State, events: seq<Event>)
    requires Reachable(s) && Run(s, events).Some?
    ensures Reachable(Run(s, events).value)
  {
    hide Run;
    var throttle, now, before := Origin(s);
    RunJoin(Init(throttle, now), before, events);
    assert Run(Init(throttle, now), before + events) == Some(Run(s, events).value);
  }

  /******* Why a single submitting thread is assumed *******/

  function Then(s: Option<State>, e: Event): Option<State> {
    if s.Some? then Step(s.value, e) else None
  }

  lemma ReachableThen(s: Option<State>, e: Event)
    requires s.Some? && Reachable(s.value) && Then(s, e).Some?
    ensures Reachable(Then(s, e).value)
  {
    RunOne(s.value, [], e);
    assert Run(s.value, []) == s;
    assert [] + [e] == [e];
    ReachableRun(s.value, [e]);
  }

  lemma InitReachable(throttle: nat, now: int)
    ensures Reachable(Init(throttle, now))
  {
    assert Run(Init(throttle, now), []) == Some(Init(throttle, now));
  }

  /** Thread 0 queues a blocking save, then thread 1 hands over a newer snapshot. */
  lemma RaceStarts() returns (s: State)
    ensures Reachable(s) && s.log == [] && !s.closed && s.pcs == map[0 := Awaiting(1), 1 := Idle] && s.submitted == 2
    ensures s.hand == Handling(0, 1) && s.mailbox == Some(2) && s.channel == [MailboxFilled] && s.replies == map[]
  {
    hide Run, Reachable;
    var init := Init(0, 0);
    InitReachable(0, 0);
    var s1 := Then(Some(init), SendBlocking(0));
    var s2 := Then(s1, Put(1));
    var s3 := Then(s2, Signal(1));
    var s4 := Then(s3, CheckMailbox);
    var s5 := Then(s4, Receive);
    ReachableThen(Some(init), SendBlocking(0));
    ReachableThen(s1, Put(1));
    ReachableThen(s2, Signal(1));
    ReachableThen(s3, CheckMailbox);
    ReachableThen(s4, Receive);
    s := s5.value;
  }

  lemma RaceEnds(s0: State) returns (s: State)
    requires Reachable(s0) && s0.log == [] && !s0.closed && s0.pcs == map[0 := Awaiting(1), 1 := Idle]
             && s0.submitted == 2
    requires s0.hand == Handling(0, 1) && s0.mailbox == Some(2) && s0.channel == [MailboxFilled] && s0.replies == map[]
    ensures Reachable(s) && s.mailbox.None? && s.hand.Looping? && s.channel == [MailboxFilled] && !s.closed
    ensures s.db == Some(1) && s.submitted == 2 && |s.log| == 1 && s.log[0].ok && s.pcs == map[0 := Idle, 1 := Idle]
  {
    hide Run, Reachable;
    var s1 := Then(Some(s0), Take);
    var s2 := Then(s1, WriteDone(true));
    var s3 := Then(s2, Reply);
    var s4 := Then(s3, Return(0));
    ReachableThen(Some(s0), Take);
    ReachableThen(s1, WriteDone(true));
    ReachableThen(s2, Reply);
    ReachableThen(s3, Return(0));
    s := s4.value;
  }

  lemma RaceShutsDown(s0: State) returns (s: State)
    requires Reachable(s0) && s0.mailbox.None? && s0.hand.Looping? && s0.channel == [MailboxFilled] && !s0.closed
    requires s0.db == Some(1) && s0.submitted == 2 && |s0.log| == 1 && s0.log[0].ok
             && s0.pcs == map[0 := Idle, 1 := Idle]
    ensures Reachable(s) && s.hand.Done? && WritesSucceed(s) && s.submitted == 2 && s.db == Some(1)
  {
    hide Run, Reachable;
    var s1 := Then(Some(s0), CheckMailbox);
    var s2 := Then(s1, Receive);
    var s3 := Then(s2, CheckMailbox);
    var s4 := Then(s3, Close);
    var s5 := Then(s4, Disconnected);
    var s6 := Then(s5, Take);
    ReachableThen(Some(s0), CheckMailbox);
    ReachableThen(s1, Receive);
    ReachableThen(s2, CheckMailbox);
    ReachableThen(s3, Close);
    ReachableThen(s4, Disconnected);
    ReachableThen(s5, Take);
    s := s6.value;
  }

  /** With two threads, a blocking save can discard a newer snapshot: shutdown then keeps an older one. */
  lemma TwoThreadsCanLose() returns (s: State)
    ensures Reachable(s) && s.hand.Done? && WritesSucceed(s) && s.submitted == 2 && s.db == Some(1)
  {
    hide Reachable;
    var begun := RaceStarts();
    var ended := RaceEnds(begun);
    s := RaceShutsDown(ended);
  }
}
