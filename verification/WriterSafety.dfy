/** What holds in every state of every interleaving, whatever number of threads submits. */
module WriterSafety {
  import opened Common
  import opened WriterModel

  /** No lost wakeup: an untimed wait with a waiting snapshot has a wakeup queued or about to be. */
  ghost predicate Awake(s: State) {
    s.hand.ReceivingUntimed? && s.mailbox.Some? ==> s.channel != [] || exists t :: Pc(s, t).Signalling?
  }

  /** Each flush but the shutdown one starts a throttle period after the write before it. */
  ghost predicate Throttled(log: seq<Write>, throttle: nat) {
    forall i | 0 < i < |log| && log[i].kind.AsyncWrite? :: log[i - 1].end + throttle <= log[i].start
  }

  ghost predicate TimesOk(s: State) {
    && Throttled(s.log, s.throttle)
    && (s.lastWriteAt.Some? <==> s.log != [])
    && (s.log != [] ==> s.lastWriteAt == Some(s.log[|s.log| - 1].end))
    && (s.hand.ReceivingTimed? && s.lastWriteAt.Some? ==> s.hand.deadline == s.lastWriteAt.value + s.throttle)
    && (s.hand.ReceivingTimed? && s.lastWriteAt.None? ==> s.hand.deadline <= s.now)
    && (s.hand.Flushing? && s.lastWriteAt.Some? ==> s.lastWriteAt.value + s.throttle <= s.now)
    && (s.hand.TakenAsync? && s.lastWriteAt.Some? ==> s.lastWriteAt.value + s.throttle <= s.hand.start)
  }

  /** The handle outlives its calls, and the writer outlives the handle and the queue. */
  ghost predicate Shutdown(s: State) {
    && (s.closed ==> forall t | t in s.pcs :: s.pcs[t].Idle?)
    && (s.hand.ShutdownFlushing? || s.hand.ShutdownTaken? || s.hand.Done? ==> s.closed && s.channel == [])
    && (s.hand.ShutdownTaken? || s.hand.Done? ==> s.mailbox.None?)
    && (s.hand.ReceivingTimed? || s.hand.Flushing? ==> s.mailbox.Some?)
    && |s.channel| <= CHANNEL_CAPACITY
  }

  /** The database holds the last snapshot that was written successfully. */
  ghost predicate Stored(s: State) {
    && (s.db.None? ==> forall i | 0 <= i < |s.log| :: !s.log[i].ok)
    && (s.db.Some? ==> exists i :: LastOk(s.log, i) && s.log[i].n == s.db.value)
  }

  ghost predicate LastOk(log: seq<Write>, i: int) {
    0 <= i < |log| && log[i].ok && forall j | i < j < |log| :: !log[j].ok
  }

  ghost predicate Safe(s: State) {
    Awake(s) && TimesOk(s) && Shutdown(s) && Stored(s)
  }

  lemma AwakeStep(s: State, e: Event)
    requires Awake(s) && Step(s, e).Some?
    ensures Awake(Step(s, e).value)
  {
    var s' := Step(s, e).value;
    if s'.hand.ReceivingUntimed? && s'.mailbox.Some? && s'.channel == [] {
      if e.Put? {
        assert Pc(s', e.thread).Signalling?;
      } else {
        var t :| Pc(s, t).Signalling?;
        assert Pc(s', t).Signalling?;
      }
    }
  }

  lemma ThrottledStep(log: seq<Write>, throttle: nat, w: Write)
    requires Throttled(log, throttle)
    requires w.kind.AsyncWrite? && log != [] ==> log[|log| - 1].end + throttle <= w.start
    ensures Throttled(log + [w], throttle)
  {}

  lemma TimesWrite(s: State, ok: bool)
    requires TimesOk(s) && StepWriteDone(s, ok).Some?
    ensures TimesOk(StepWriteDone(s, ok).value)
  {
    hide Throttled;
    var s' := StepWriteDone(s, ok).value;
    ThrottledStep(s.log, s.throttle, s'.log[|s.log|]);
  }

  lemma TimesWait(s: State, e: Event)
    requires TimesOk(s) && !e.WriteDone? && Step(s, e).Some?
    ensures TimesOk(Step(s, e).value)
  {
    hide Throttled;
  }

  lemma TimesStep(s: State, e: Event)
    requires TimesOk(s) && Step(s, e).Some?
    ensures TimesOk(Step(s, e).value)
  {
    hide TimesOk;
    if e.WriteDone? {
      TimesWrite(s, e.ok);
    } else {
      TimesWait(s, e);
    }
  }

  lemma ShutdownStep(s: State, e: Event)
    requires Shutdown(s) && Step(s, e).Some?
    ensures Shutdown(Step(s, e).value)
  {}

  lemma StoredWrite(s: State, ok: bool)
    requires Stored(s) && StepWriteDone(s, ok).Some?
    ensures Stored(StepWriteDone(s, ok).value)
  {
    var s' := StepWriteDone(s, ok).value;
    var last := |s.log|;
    if ok {
      assert LastOk(s'.log, last);
    } else if s.db.Some? {
      var i :| LastOk(s.log, i) && s.log[i].n == s.db.value;
      assert LastOk(s'.log, i);
    }
  }

  lemma StoredStep(s: State, e: Event)
    requires Stored(s) && Step(s, e).Some?
    ensures Stored(Step(s, e).value)
  {
    hide Stored;
    if e.WriteDone? {
      StoredWrite(s, e.ok);
    } else {
      StoredKept(s, Step(s, e).value);
    }
  }

  lemma StoredKept(s: State, s': State)
    requires Stored(s) && s'.db == s.db && s'.log == s.log
    ensures Stored(s')
  {}

  lemma {:induction false} RunSafe(s: State, events: seq<Event>)
    requires Safe(s) && Run(s, events).Some?
    ensures Safe(Run(s, events).value)
  {
    hide Step, Awake, TimesOk, Shutdown, Stored;
    if |events| > 0 {
      var front, e := events[..|events| - 1], events[|events| - 1];
      RunSafe(s, front);
      var s1 := Run(s, front).value;
      AwakeStep(s1, e);
      TimesStep(s1, e);
      ShutdownStep(s1, e);
      StoredStep(s1, e);
    }
  }

  /** Every reachable state is awake, throttled and consistent. */
  lemma AlwaysSafe(s: State)
    requires Reachable(s)
    ensures Safe(s)
  {
    hide Run, Reachable;
    var throttle: nat, now: int, events: seq<Event> := Origin(s);
    RunSafe(Init(throttle, now), events);
  }

  lemma Origin(s: State) returns (throttle: nat, now: int, events: seq<Event>)
    requires Reachable(s)
    ensures Run(Init(throttle, now), events) == Some(s)
  {
    throttle, now, events :| Run(Init(throttle, now), events) == Some(s);
  }

  /** The writer never exits under a submitting thread: the wakeup cannot find it gone. */
  lemma WriterOutlivesCallers(s: State, t: nat)
    requires Reachable(s) && !Pc(s, t).Idle?
    ensures !s.hand.Done? && !s.closed
  {
    hide Reachable;
    AlwaysSafe(s);
  }

  /** A writer waiting without a deadline is always about to be woken if a snapshot waits. */
  lemma NoLostWakeup(s: State)
    requires Reachable(s) && s.hand.ReceivingUntimed? && s.mailbox.Some?
    ensures s.channel != [] || exists t :: Pc(s, t).Signalling?
  {
    hide Reachable;
    AlwaysSafe(s);
  }

  /** A throttled flush starts a full period after the previous write ended, failed or not. */
  lemma FlushesThrottled(s: State, i: nat)
    requires Reachable(s) && 0 < i < |s.log| && s.log[i].kind.AsyncWrite?
    ensures s.log[i - 1].end + s.throttle <= s.log[i].start
  {
    hide Reachable;
    AlwaysSafe(s);
  }

  /** A waiting snapshot is held back no longer than the throttle demands, and the first one not at all. */
  lemma HeldBackExactly(s: State)
    requires Reachable(s) && s.hand.ReceivingTimed?
    ensures if s.log == [] then s.hand.deadline <= s.now
            else s.hand.deadline == s.log[|s.log| - 1].end + s.throttle
    ensures s.mailbox.Some?
  {
    hide Reachable;
    AlwaysSafe(s);
  }

  /** At most sixteen messages wait: a blocking call waits for room, a wakeup never does. */
  lemma QueueBounded(s: State, t: nat)
    requires Reachable(s)
    ensures |s.channel| <= 16
    ensures Step(s, SendBlocking(t)).Some? <==> Pc(s, t).Idle? && !s.closed && |s.channel| < 16
    ensures Pc(s, t).Signalling? ==>
              && Step(s, Signal(t)).Some?
              && Step(s, Signal(t)).value.channel
                 == if |s.channel| < 16 then s.channel + [MailboxFilled] else s.channel
  {
    hide Reachable;
    AlwaysSafe(s);
    assert Pc(s, t).Signalling? ==> t in s.pcs;
  }

  /** When the write in the writer's hands began. */
  function Began(s: State): Option<int> {
    match s.hand
    case TakenAsync(_, start) => Some(start)
    case TakenBlocking(_, _, start) => Some(start)
    case ShutdownTaken(_, start) => Some(start)
    case _ => None
  }

  /** Writes follow one another, each from its own beginning to its own end. */
  ghost predicate Sequential(log: seq<Write>, now: int) {
    && (forall i | 0 <= i < |log| :: log[i].start <= log[i].end <= now)
    && (forall i | 0 < i < |log| :: log[i - 1].end <= log[i].start)
  }

  ghost predicate Timed(s: State) {
    && Sequential(s.log, s.now)
    && (Began(s).Some? ==> Began(s).value <= s.now && (s.log != [] ==> s.log[|s.log| - 1].end <= Began(s).value))
  }

  lemma SequentialMore(log: seq<Write>, now: int, w: Write)
    requires Sequential(log, now) && w.start <= w.end == now && (log != [] ==> log[|log| - 1].end <= w.start)
    ensures Sequential(log + [w], now)
  {}

  lemma LastEnd(log: seq<Write>, now: int)
    requires Sequential(log, now)
    ensures log != [] ==> log[|log| - 1].end <= now
  {}

  lemma LaterStill(log: seq<Write>, now: int, now': int)
    requires Sequential(log, now) && now <= now'
    ensures Sequential(log, now')
  {}

  lemma TimedWrite(s: State, ok: bool)
    requires Timed(s) && StepWriteDone(s, ok).Some?
    ensures Timed(StepWriteDone(s, ok).value)
  {
    hide Sequential;
    SequentialMore(s.log, s.now, StepWriteDone(s, ok).value.log[|s.log|]);
  }

  lemma TimedTake(s: State)
    requires Timed(s) && StepTake(s).Some?
    ensures Timed(StepTake(s).value)
  {
    LastEnd(s.log, s.now);
    hide Sequential;
  }

  lemma TimedOther(s: State, e: Event)
    requires Timed(s) && !e.WriteDone? && !e.Take? && Step(s, e).Some?
    ensures Timed(Step(s, e).value)
  {
    hide Sequential;
    var s' := Step(s, e).value;
    assert s'.log == s.log && s.now <= s'.now && (Began(s') == Began(s) || Began(s').None?);
    LaterStill(s.log, s.now, s'.now);
  }

  lemma TimedStep(s: State, e: Event)
    requires Timed(s) && Step(s, e).Some?
    ensures Timed(Step(s, e).value)
  {
    hide Timed;
    if e.WriteDone? {
      TimedWrite(s, e.ok);
    } else if e.Take? {
      TimedTake(s);
    } else {
      TimedOther(s, e);
    }
  }

  lemma {:induction false} RunTimed(s: State, events: seq<Event>)
    requires Timed(s) && Run(s, events).Some?
    ensures Timed(Run(s, events).value)
  {
    hide Step, Timed;
    if |events| > 0 {
      RunTimed(s, events[..|events| - 1]);
      TimedStep(Run(s, events[..|events| - 1]).value, events[|events| - 1]);
    }
  }

  /** One write at a time: each begins behind the end of the one before and ends no earlier than it began. */
  lemma OneWriteAtATime(s: State, i: nat)
    requires Reachable(s) && i < |s.log|
    ensures s.log[i].start <= s.log[i].end <= s.now
    ensures i > 0 ==> s.log[i - 1].end <= s.log[i].start
  {
    hide Run, Reachable;
    var throttle, now, events := Origin(s);
    RunTimed(Init(throttle, now), events);
  }
}
