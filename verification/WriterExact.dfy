/**
 Which snapshots end in the database when the saving stops, for any number of
 threads: a blocking one always, an asynchronous one exactly when no blocking
 save was queued or taken up when it was handed over.
 */
module WriterExact {
  import opened Common
  import opened WriterModel
  import opened WriterSafety
  import opened WriterOrder
  import opened WriterProgress

  ghost predicate BlockingQueued(s: State) {
    exists i :: 0 <= i < |s.channel| && s.channel[i].Blocking?
  }

  /** A blocking save will still empty the mailbox. */
  ghost predicate BlockingAhead(s: State) {
    BlockingQueued(s) || s.hand.Handling?
  }

  /** The writer holds a snapshot whose write has begun. */
  predicate Writing(s: State) {
    s.hand.TakenAsync? || s.hand.TakenBlocking? || s.hand.ShutdownTaken?
  }

  /** The saving has stopped and every write succeeds. */
  predicate Finishing(e: Event) {
    !e.Put? && !e.SendBlocking? && (e.WriteDone? ==> e.ok)
  }

  ghost predicate AllFinishing(events: seq<Event>) {
    forall e | e in events :: Finishing(e)
  }

  /******* On the way to the database *******/

  /** Snapshot `n` waits, is being written, or is stored, and no blocking save is in its way. */
  ghost predicate Heading(s: State, n: nat) {
    && !BlockingAhead(s)
    && (|| s.mailbox == Some(n)
        || (s.mailbox.None? && (s.hand.TakenAsync? || s.hand.ShutdownTaken?) && s.hand.n == n)
        || (s.mailbox.None? && !Writing(s) && s.db == Some(n)))
  }

  /** Another snapshot will be written, or was, after every chance of `n`. */
  ghost predicate Doomed(s: State, n: nat) {
    && (forall i | 0 <= i < |s.channel| && s.channel[i].Blocking? :: s.channel[i].n != n)
    && (s.hand.Handling? || s.hand.TakenBlocking? ==> s.hand.n != n)
    && (|| BlockingAhead(s)
        || (s.mailbox.None? && s.hand.TakenBlocking?)
        || (s.mailbox.None? && !Writing(s) && s.db.Some? && s.db.value != n))
  }

  /** Blocking snapshot `n` is the last message of its kind, or is being served, or is stored. */
  ghost predicate Promised(s: State, n: nat) {
    || (exists i :: 0 <= i < |s.channel| && s.channel[i].Blocking? && s.channel[i].n == n
                    && forall j | i < j < |s.channel| :: !s.channel[j].Blocking?)
    || (!BlockingQueued(s) && s.hand.Handling? && s.hand.n == n)
    || (!BlockingQueued(s) && s.mailbox.None? && s.hand.TakenBlocking? && s.hand.n == n)
    || (!BlockingAhead(s) && s.mailbox.None? && !Writing(s) && s.db == Some(n))
  }

  lemma ReceiveQueue(s: State)
    requires StepReceive(s).Some? && BlockingQueued(StepReceive(s).value)
    ensures BlockingQueued(s)
  {
    var s' := StepReceive(s).value;
    var i :| 0 <= i < |s'.channel| && s'.channel[i].Blocking?;
    assert s.channel[i + 1].Blocking?;
  }

  lemma SignalQueue(s: State, t: nat)
    requires StepSignal(s, t).Some?
    ensures BlockingQueued(StepSignal(s, t).value) == BlockingQueued(s)
  {
    var s' := StepSignal(s, t).value;
    if BlockingQueued(s) {
      var i :| 0 <= i < |s.channel| && s.channel[i].Blocking?;
      assert s'.channel[i].Blocking?;
    }
  }

  lemma HeadingStep(s: State, e: Event, n: nat)
    requires Heading(s, n) && Finishing(e) && Shutdown(s) && Step(s, e).Some?
    ensures Heading(Step(s, e).value, n)
  {
    if e.Receive? {
      assert !s.channel[0].Blocking?;
      if BlockingQueued(Step(s, e).value) { ReceiveQueue(s); }
    } else if e.Signal? {
      SignalQueue(s, e.thread);
      assert e.thread in s.pcs;
    } else {
      assert Step(s, e).value.channel == s.channel;
    }
  }

  lemma DoomedReceive(s: State, n: nat)
    requires Doomed(s, n) && StepReceive(s).Some?
    ensures Doomed(StepReceive(s).value, n)
  {
    var s' := StepReceive(s).value;
    if BlockingQueued(s) && !s.channel[0].Blocking? {
      var i :| 0 <= i < |s.channel| && s.channel[i].Blocking?;
      assert s'.channel[i - 1].Blocking?;
    }
  }

  lemma DoomedStep(s: State, e: Event, n: nat)
    requires Doomed(s, n) && Finishing(e) && Shutdown(s) && Step(s, e).Some?
    ensures Doomed(Step(s, e).value, n)
  {
    if e.Receive? {
      DoomedReceive(s, n);
    } else if e.Signal? {
      SignalQueue(s, e.thread);
      assert e.thread in s.pcs;
    } else {
      assert Step(s, e).value.channel == s.channel;
    }
  }

  lemma PromisedReceive(s: State, n: nat)
    requires Promised(s, n) && StepReceive(s).Some?
    ensures Promised(StepReceive(s).value, n)
  {
    var s' := StepReceive(s).value;
    if BlockingQueued(s) {
      var i :| 0 <= i < |s.channel| && s.channel[i].Blocking? && s.channel[i].n == n
               && forall j | i < j < |s.channel| :: !s.channel[j].Blocking?;
      if i > 0 { assert s'.channel[i - 1] == s.channel[i]; }
    } else if BlockingQueued(s') {
      ReceiveQueue(s);
    }
  }

  lemma PromisedSignal(s: State, t: nat, n: nat)
    requires Promised(s, n) && Shutdown(s) && StepSignal(s, t).Some?
    ensures Promised(StepSignal(s, t).value, n)
  {
    var s' := StepSignal(s, t).value;
    SignalQueue(s, t);
    assert t in s.pcs;
    if BlockingQueued(s) {
      var i :| 0 <= i < |s.channel| && s.channel[i].Blocking? && s.channel[i].n == n
               && forall j | i < j < |s.channel| :: !s.channel[j].Blocking?;
      assert s'.channel[i] == s.channel[i];
    }
  }

  lemma PromisedStep(s: State, e: Event, n: nat)
    requires Promised(s, n) && Finishing(e) && Shutdown(s) && Step(s, e).Some?
    ensures Promised(Step(s, e).value, n)
  {
    if e.Receive? {
      PromisedReceive(s, n);
    } else if e.Signal? {
      PromisedSignal(s, e.thread, n);
    } else {
      assert Step(s, e).value.channel == s.channel;
    }
  }

  lemma {:induction false} RunFate(s: State, events: seq<Event>, n: nat)
    requires Safe(s) && AllFinishing(events) && Run(s, events).Some?
    ensures Safe(Run(s, events).value)
    ensures Heading(s, n) ==> Heading(Run(s, events).value, n)
    ensures Doomed(s, n) ==> Doomed(Run(s, events).value, n)
    ensures Promised(s, n) ==> Promised(Run(s, events).value, n)
  {
    hide Heading, Doomed, Promised, Awake, TimesOk, Stored, Shutdown, Step, Finishing;
    if |events| > 0 {
      var front, e := events[..|events| - 1], events[|events| - 1];
      forall x | x in front ensures Finishing(x) { assert x in events; }
      assert e in events;
      RunFate(s, front, n);
      var mid := Run(s, front).value;
      SafeStep(mid, e);
      if Heading(s, n) { HeadingStep(mid, e, n); }
      if Doomed(s, n) { DoomedStep(mid, e, n); }
      if Promised(s, n) { PromisedStep(mid, e, n); }
    }
  }

  /**
   However the threads interleaved before, when the saving stops, every write succeeds
   and the writer comes to rest, a snapshot handed over asynchronously is what the
   database holds exactly when, at that moment, no blocking save was queued or taken up.
   */
  lemma LastAsyncStored(s: State, t: nat, events: seq<Event>)
    requires Reachable(s) && StepPut(s, t).Some?
    requires AllFinishing(events) && Run(StepPut(s, t).value, events).Some?
    requires Resting(Run(StepPut(s, t).value, events).value)
    ensures Run(StepPut(s, t).value, events).value.db == Some(s.submitted + 1)
            <==> !((exists i :: 0 <= i < |s.channel| && s.channel[i].Blocking?) || s.hand.Handling?)
  {
    hide Reachable, Run, AllFinishing, Safe, Numbered, Step;
    var n, put := s.submitted + 1, StepPut(s, t).value;
    AlwaysSafe(s);
    SafeStep(s, Put(t)) by { assert Step(s, Put(t)) == StepPut(s, t) by { PutSteps(s, t); } }
    PutSteps(s, t);
    RunFate(put, events, n);
    assert BlockingAhead(put) == BlockingAhead(s);
    if BlockingAhead(s) {
      AlwaysNumbered(s);
      NumberedDoomed(s, t);
    }
  }

  lemma PutSteps(s: State, t: nat)
    ensures Step(s, Put(t)) == StepPut(s, t)
    ensures Step(s, SendBlocking(t)) == StepSendBlocking(s, t)
  {}

  lemma NumberedDoomed(s: State, t: nat)
    requires Numbered(s) && BlockingAhead(s) && StepPut(s, t).Some?
    ensures Doomed(StepPut(s, t).value, s.submitted + 1)
  {}

  /** A blocking save, once queued, is what the database holds at the end, whatever was queued before it. */
  lemma LastBlockingStored(s: State, t: nat, events: seq<Event>)
    requires Reachable(s) && StepSendBlocking(s, t).Some?
    requires AllFinishing(events) && Run(StepSendBlocking(s, t).value, events).Some?
    requires Resting(Run(StepSendBlocking(s, t).value, events).value)
    ensures Run(StepSendBlocking(s, t).value, events).value.db == Some(s.submitted + 1)
  {
    hide Reachable, Run, AllFinishing, Safe, Step;
    var n, sent := s.submitted + 1, StepSendBlocking(s, t).value;
    AlwaysSafe(s);
    PutSteps(s, t);
    SafeStep(s, SendBlocking(t));
    assert sent.channel[|s.channel|] == Blocking(t, n);
    RunFate(sent, events, n);
  }

  /******* Calls that do not overlap *******/

  /** Every blocking save still owed belongs to a thread waiting for it, one each. */
  ghost predicate Owed(s: State) {
    && (forall i | 0 <= i < |s.channel| && s.channel[i].Blocking? ::
          && Pc(s, s.channel[i].thread) == Awaiting(s.channel[i].n) && s.channel[i].thread !in s.replies
          && !(Serving(s) && s.hand.thread == s.channel[i].thread))
    && (forall i, j | 0 <= i < j < |s.channel| && s.channel[i].Blocking? && s.channel[j].Blocking? ::
          s.channel[i].thread != s.channel[j].thread)
    && (Serving(s) ==> Pc(s, s.hand.thread) == Awaiting(s.hand.n) && s.hand.thread !in s.replies)
    && (forall t | t in s.replies :: Pc(s, t).Awaiting?)
  }

  lemma OwedSend(s: State, t: nat)
    requires Owed(s) && StepSendBlocking(s, t).Some?
    ensures Owed(StepSendBlocking(s, t).value)
  {}

  lemma OwedByCaller(s: State, e: Event)
    requires Owed(s) && Caller(e) && !e.SendBlocking? && Step(s, e).Some?
    ensures Owed(Step(s, e).value)
  {}

  lemma OwedReceive(s: State)
    requires Owed(s) && StepReceive(s).Some?
    ensures Owed(StepReceive(s).value)
  {}

  lemma OwedReply(s: State)
    requires Owed(s) && StepReply(s).Some?
    ensures Owed(StepReply(s).value)
  {}

  lemma OwedKept(s: State, s': State)
    requires Owed(s) && s'.channel == s.channel && s'.pcs == s.pcs && s'.replies == s.replies
    requires Serving(s') ==> Serving(s) && s'.hand.thread == s.hand.thread && s'.hand.n == s.hand.n
    ensures Owed(s')
  {}

  lemma OwedByWriter(s: State, e: Event)
    requires Owed(s) && !Caller(e) && !e.Receive? && !e.Reply? && Step(s, e).Some?
    ensures Owed(Step(s, e).value)
  {
    hide Owed;
    OwedKept(s, Step(s, e).value);
  }

  lemma {:induction false} RunOwed(s: State, events: seq<Event>)
    requires Owed(s) && Run(s, events).Some?
    ensures Owed(Run(s, events).value)
  {
    hide Owed;
    if |events| > 0 {
      var front, e := events[..|events| - 1], events[|events| - 1];
      RunOwed(s, front);
      if e.SendBlocking? {
        OwedSend(Run(s, front).value, e.thread);
      } else if Caller(e) {
        OwedByCaller(Run(s, front).value, e);
      } else if e.Receive? {
        OwedReceive(Run(s, front).value);
      } else if e.Reply? {
        OwedReply(Run(s, front).value);
      } else {
        OwedByWriter(Run(s, front).value, e);
      }
    }
  }

  /**
   So a snapshot handed over while no blocking call is running is never lost: with any
   number of threads whose calls do not overlap, and in particular with a single one.
   */
  lemma NoOverlapNoLoss(s: State, t: nat, events: seq<Event>)
    requires Reachable(s) && StepPut(s, t).Some? && forall u :: !Pc(s, u).Awaiting?
    requires AllFinishing(events) && Run(StepPut(s, t).value, events).Some?
    requires Resting(Run(StepPut(s, t).value, events).value)
    ensures Run(StepPut(s, t).value, events).value.db == Some(s.submitted + 1)
  {
    hide Reachable, Run, AllFinishing;
    var throttle, now, before := Origin(s);
    RunOwed(Init(throttle, now), before);
    LastAsyncStored(s, t, events);
  }

  /******* What a reply means *******/

  ghost predicate IsWrite(log: seq<Write>, i: int, n: nat, ok: bool) {
    0 <= i < |log| && log[i].n == n && log[i].ok == ok
  }

  ghost predicate WasWritten(log: seq<Write>, n: nat, ok: bool) {
    exists i :: IsWrite(log, i, n, ok)
  }

  /** Each reply tells how the write of its caller's snapshot went. */
  ghost predicate RepliesTrue(s: State) {
    && (s.hand.Replying? ==> WasWritten(s.log, s.hand.n, s.hand.ok))
    && (forall t | t in s.replies :: Pc(s, t).Awaiting? && WasWritten(s.log, Pc(s, t).n, s.replies[t]))
  }

  lemma StillWritten(log: seq<Write>, w: Write, n: nat, ok: bool)
    ensures WasWritten(log, n, ok) ==> WasWritten(log + [w], n, ok)
    ensures WasWritten(log + [w], w.n, w.ok)
  {
    if i :| IsWrite(log, i, n, ok) { assert IsWrite(log + [w], i, n, ok); }
    assert IsWrite(log + [w], |log|, w.n, w.ok);
  }

  lemma RepliesWrite(s: State, ok: bool)
    requires RepliesTrue(s) && StepWriteDone(s, ok).Some?
    ensures RepliesTrue(StepWriteDone(s, ok).value)
  {
    hide WasWritten;
    var s' := StepWriteDone(s, ok).value;
    var w := s'.log[|s.log|];
    StillWritten(s.log, w, 0, ok);
    forall t | t in s'.replies ensures Pc(s', t).Awaiting? && WasWritten(s'.log, Pc(s', t).n, s'.replies[t]) {
      StillWritten(s.log, w, Pc(s, t).n, s.replies[t]);
    }
  }

  lemma RepliesOther(s: State, e: Event)
    requires RepliesTrue(s) && Owed(s) && !e.WriteDone? && Step(s, e).Some?
    ensures RepliesTrue(Step(s, e).value)
  {
    hide WasWritten;
  }

  lemma {:induction false} RunReplies(s: State, events: seq<Event>)
    requires Owed(s) && RepliesTrue(s) && Run(s, events).Some?
    ensures Owed(Run(s, events).value) && RepliesTrue(Run(s, events).value)
  {
    hide Owed, RepliesTrue, Step;
    RunOwed(s, events);
    if |events| > 0 {
      var front, e := events[..|events| - 1], events[|events| - 1];
      RunReplies(s, front);
      if e.WriteDone? {
        RepliesWriteDone(Run(s, front).value, e.ok);
      } else {
        RepliesOther(Run(s, front).value, e);
      }
    }
  }

  lemma RepliesWriteDone(s: State, ok: bool)
    requires RepliesTrue(s) && Step(s, WriteDone(ok)).Some?
    ensures RepliesTrue(Step(s, WriteDone(ok)).value)
  {
    hide RepliesTrue;
    RepliesWrite(s, ok);
  }

  /** With any number of threads, a blocking call returns the result of writing its own snapshot. */
  lemma ReplyTellsOwnWrite(s: State, t: nat)
    requires Reachable(s) && Step(s, Return(t)).Some?
    ensures Pc(s, t).Awaiting?
            && exists i :: 0 <= i < |s.log| && s.log[i].n == Pc(s, t).n && s.log[i].ok == s.replies[t]
  {
    hide Run, Reachable;
    var throttle, now, before := Origin(s);
    RunReplies(Init(throttle, now), before);
    var i :| IsWrite(s.log, i, Pc(s, t).n, s.replies[t]);
  }
}
