/**
 No snapshot is lost when one thread issues every save: snapshots reach the
 database in submission order, and the newest is always accounted for.
 */
module WriterOrder {
  import opened Common
  import opened WriterModel
  import opened WriterSafety

  /** Only one thread, here thread 0, has ever called the writer. */
  ghost predicate Sole(s: State) {
    s.pcs.Keys <= {0}
  }

  function LastWritten(s: State): nat {
    if s.log == [] then 0 else s.log[|s.log| - 1].n
  }

  /** The snapshot in the writer's hands, not written yet. */
  function Held(s: State): Option<nat> {
    match s.hand
    case TakenAsync(n, _) => Some(n)
    case Handling(_, n) => Some(n)
    case TakenBlocking(_, n, _) => Some(n)
    case ShutdownTaken(n, _) => Some(n)
    case _ => None
  }

  /** The writer is serving a blocking save. */
  predicate Serving(s: State) {
    s.hand.Handling? || s.hand.TakenBlocking? || s.hand.Replying?
  }

  /** A blocking save waits in the channel. */
  predicate Queued(s: State) {
    Pc(s, 0).Awaiting? && 0 !in s.replies && !Serving(s)
  }

  /** Where the one blocking save of an awaiting thread is. */
  ghost predicate Awaited(s: State) {
    && (Pc(s, 0).Awaiting? ==> Pc(s, 0).n == s.submitted)
    && (forall i | 0 <= i < |s.channel| && s.channel[i].Blocking? ::
          Queued(s) && s.channel[i] == Blocking(0, s.submitted))
    && (forall i, j | 0 <= i < j < |s.channel| :: !(s.channel[i].Blocking? && s.channel[j].Blocking?))
    && (Queued(s) ==> exists i :: 0 <= i < |s.channel| && s.channel[i].Blocking?)
    && (Serving(s) ==> s.hand.thread == 0 && s.hand.n == s.submitted && Pc(s, 0).Awaiting? && 0 !in s.replies)
    && s.replies.Keys <= {0}
    && (0 in s.replies ==> Pc(s, 0).Awaiting?)
  }

  /** A blocking save that is being answered was the last write, and nothing waits behind it. */
  ghost predicate Answered(s: State) {
    && (s.hand.TakenBlocking? || s.hand.Replying? || 0 in s.replies ==> s.mailbox.None?)
    && (s.hand.Replying? ==> s.log != [] && LastWritten(s) == s.submitted && s.hand.ok == s.log[|s.log| - 1].ok)
    && (0 in s.replies ==>
          && s.log != [] && LastWritten(s) == s.submitted && s.replies[0] == s.log[|s.log| - 1].ok
          && (s.hand.Looping? || s.hand.ReceivingUntimed?))
  }

  ghost predicate Ascending(log: seq<Write>) {
    forall i, j | 0 <= i < j < |log| :: log[i].n < log[j].n
  }

  /** Written, held and waiting snapshots are in submission order. */
  ghost predicate InOrder(s: State) {
    && Ascending(s.log)
    && LastWritten(s) <= s.submitted
    && (Held(s).Some? ==> LastWritten(s) < Held(s).value <= s.submitted)
    && (s.mailbox.Some? ==> LastWritten(s) < s.mailbox.value <= s.submitted)
    && (s.mailbox.Some? && s.hand.TakenAsync? ==> s.hand.n < s.mailbox.value)
    && (Queued(s) || s.hand.Handling? ==> s.mailbox.Some? ==> s.mailbox.value < s.submitted)
    && (Queued(s) ==> LastWritten(s) < s.submitted && (Held(s).Some? ==> Held(s).value < s.submitted))
  }

  /** The newest snapshot was written, or is held, waiting, or queued. */
  ghost predicate NewestKept(s: State) {
    || LastWritten(s) == s.submitted
    || Held(s) == Some(s.submitted)
    || s.mailbox == Some(s.submitted)
    || Queued(s)
  }

  ghost predicate Ordered(s: State) {
    Awaited(s) && Answered(s) && InOrder(s) && NewestKept(s) && Shutdown(s)
  }

  lemma SoleBefore(s: State, e: Event)
    requires Step(s, e).Some? && Sole(Step(s, e).value)
    ensures Sole(s)
    ensures Caller(e) ==> e.thread == 0
  {
    if Caller(e) { assert e.thread in Step(s, e).value.pcs; }
  }

  /** A step of a submitting thread. */
  predicate Caller(e: Event) {
    e.Put? || e.Signal? || e.SendBlocking? || e.Return?
  }

  lemma AwaitedByCaller(s: State, e: Event)
    requires Ordered(s) && Caller(e) && e.thread == 0 && Step(s, e).Some?
    ensures Awaited(Step(s, e).value)
  {
    hide InOrder, NewestKept, Answered;
    var s' := Step(s, e).value;
    if e.SendBlocking? {
      assert s'.channel[|s.channel|].Blocking?;
    }
  }

  lemma AwaitedReceive(s: State)
    requires Ordered(s) && StepReceive(s).Some?
    ensures Awaited(StepReceive(s).value)
  {
    hide InOrder, NewestKept, Answered;
    var s' := StepReceive(s).value;
    if Queued(s) && Queued(s') {
      var i :| 0 <= i < |s.channel| && s.channel[i].Blocking?;
      assert s'.channel[i - 1] == s.channel[i];
    }
  }

  lemma AwaitedByWriter(s: State, e: Event)
    requires Ordered(s) && !Caller(e) && !e.Receive? && Step(s, e).Some?
    ensures Awaited(Step(s, e).value)
  {
    hide InOrder, NewestKept, Answered;
    var s' := Step(s, e).value;
    assert s'.channel == s.channel;
  }

  lemma AwaitedStep(s: State, e: Event)
    requires Ordered(s) && Step(s, e).Some? && Sole(Step(s, e).value)
    ensures Awaited(Step(s, e).value)
  {
    hide Ordered, Awaited;
    SoleBefore(s, e);
    if Caller(e) {
      AwaitedByCaller(s, e);
    } else if e.Receive? {
      AwaitedReceive(s);
    } else {
      AwaitedByWriter(s, e);
    }
  }

  lemma AnsweredStep(s: State, e: Event)
    requires Ordered(s) && Step(s, e).Some? && Sole(Step(s, e).value)
    ensures Answered(Step(s, e).value)
  {
    SoleBefore(s, e);
  }

  lemma InOrderByCaller(s: State, e: Event)
    requires Ordered(s) && Caller(e) && e.thread == 0 && Step(s, e).Some?
    ensures InOrder(Step(s, e).value)
  {
    hide Ascending, NewestKept;
  }

  lemma InOrderTake(s: State)
    requires Ordered(s) && StepTake(s).Some?
    ensures InOrder(StepTake(s).value)
  {
    hide NewestKept, Ascending;
  }

  lemma InOrderWrite(s: State, ok: bool)
    requires Ordered(s) && StepWriteDone(s, ok).Some?
    ensures InOrder(StepWriteDone(s, ok).value)
  {
    hide NewestKept;
  }

  lemma InOrderByWriter(s: State, e: Event)
    requires Ordered(s) && !Caller(e) && !e.Take? && !e.WriteDone? && Step(s, e).Some?
    ensures InOrder(Step(s, e).value)
  {
    hide Ascending, NewestKept;
  }

  lemma InOrderStep(s: State, e: Event)
    requires Ordered(s) && Step(s, e).Some? && Sole(Step(s, e).value)
    ensures InOrder(Step(s, e).value)
  {
    hide Ordered, InOrder;
    SoleBefore(s, e);
    if Caller(e) {
      InOrderByCaller(s, e);
    } else if e.Take? {
      InOrderTake(s);
    } else if e.WriteDone? {
      InOrderWrite(s, e.ok);
    } else {
      InOrderByWriter(s, e);
    }
  }

  lemma NewestKeptByCaller(s: State, e: Event)
    requires Ordered(s) && Caller(e) && e.thread == 0 && Step(s, e).Some?
    ensures NewestKept(Step(s, e).value)
  {
    hide Ascending;
  }

  lemma NewestKeptByWriter(s: State, e: Event)
    requires Ordered(s) && !Caller(e) && Step(s, e).Some?
    ensures NewestKept(Step(s, e).value)
  {
    hide Ascending;
  }

  lemma NewestKeptStep(s: State, e: Event)
    requires Ordered(s) && Step(s, e).Some? && Sole(Step(s, e).value)
    ensures NewestKept(Step(s, e).value)
  {
    hide Ordered, NewestKept;
    SoleBefore(s, e);
    if Caller(e) {
      NewestKeptByCaller(s, e);
    } else {
      NewestKeptByWriter(s, e);
    }
  }

  lemma {:induction false} RunOrdered(s: State, events: seq<Event>)
    requires Ordered(s) && Run(s, events).Some? && Sole(Run(s, events).value)
    ensures Ordered(Run(s, events).value)
  {
    hide Step, Awaited, Answered, InOrder, NewestKept, Shutdown, Sole;
    if |events| > 0 {
      var front, e := events[..|events| - 1], events[|events| - 1];
      var s1 := Run(s, front).value;
      SoleBefore(s1, e);
      RunOrdered(s, front);
      AwaitedStep(s1, e);
      AnsweredStep(s1, e);
      InOrderStep(s1, e);
      NewestKeptStep(s1, e);
      ShutdownStep(s1, e);
    }
  }

  lemma AlwaysOrdered(s: State)
    requires Reachable(s) && Sole(s)
    ensures Ordered(s)
  {
    hide Run, Reachable, Sole;
    var throttle, now, events := Origin(s);
    RunOrdered(Init(throttle, now), events);
  }

  /******* What callers get *******/

  ghost predicate WritesSucceed(s: State) {
    forall i | 0 <= i < |s.log| :: s.log[i].ok
  }

  lemma StoredIsLast(s: State)
    requires Stored(s) && WritesSucceed(s)
    ensures s.db == if s.log == [] then None else Some(LastWritten(s))
  {
    if s.log != [] {
      var last := |s.log| - 1;
      assert s.log[last].ok;
      assert s.db.Some?;
      var i :| LastOk(s.log, i) && s.log[i].n == s.db.value;
      assert i == last;
    }
  }

  /** Snapshots are written in strictly increasing order of submission, with no repetition. */
  lemma WrittenInOrder(s: State)
    requires Reachable(s) && Sole(s)
    ensures forall i, j | 0 <= i < j < |s.log| :: s.log[i].n < s.log[j].n
    ensures forall i | 0 <= i < |s.log| :: 1 <= s.log[i].n <= s.submitted
  {
    hide Reachable;
    AlwaysOrdered(s);
    AlwaysNumbered(s);
  }

  /** The newest snapshot is in the database, the writer's hands, the mailbox or the queue. */
  lemma NothingLost(s: State)
    requires Reachable(s) && Sole(s) && WritesSucceed(s) && s.submitted > 0
    ensures || s.db == Some(s.submitted)
            || Held(s) == Some(s.submitted)
            || s.mailbox == Some(s.submitted)
            || Blocking(0, s.submitted) in s.channel
  {
    hide Reachable;
    AlwaysOrdered(s);
    AlwaysSafe(s);
    StoredIsLast(s);
    if Queued(s) {
      var i :| 0 <= i < |s.channel| && s.channel[i].Blocking?;
      assert s.channel[i] == Blocking(0, s.submitted);
    }
  }

  /** After shutdown the database equals the newest snapshot. */
  lemma ShutdownPersists(s: State)
    requires Reachable(s) && Sole(s) && WritesSucceed(s) && s.hand.Done?
    ensures s.db == if s.submitted == 0 then None else Some(s.submitted)
  {
    hide Reachable;
    AlwaysOrdered(s);
    AlwaysSafe(s);
    StoredIsLast(s);
    AlwaysNumbered(s);
  }

  /** `save_blocking` returns Ok only when the database equals its argument. */
  lemma BlockingOkMeansStored(s: State, n: nat)
    requires Reachable(s) && Sole(s)
    requires Step(s, Return(0)).Some? && Pc(s, 0) == Awaiting(n) && s.replies[0]
    ensures s.db == Some(n)
  {
    hide Reachable;
    AlwaysOrdered(s);
    AlwaysSafe(s);
    var last := |s.log| - 1;
    assert s.log[last].ok;
    assert s.db.Some?;
    var i :| LastOk(s.log, i) && s.log[i].n == s.db.value;
    assert i == last;
  }

  /** Submission numbers count from 1 to the latest. */
  ghost predicate Numbered(s: State) {
    && (forall i | 0 <= i < |s.log| :: 1 <= s.log[i].n <= s.submitted)
    && (forall i | 0 <= i < |s.channel| && s.channel[i].Blocking? :: 1 <= s.channel[i].n <= s.submitted)
    && (s.mailbox.Some? ==> 1 <= s.mailbox.value <= s.submitted)
    && (Held(s).Some? ==> 1 <= Held(s).value <= s.submitted)
  }

  lemma NumberedSend(s: State, t: nat)
    requires Numbered(s) && StepSendBlocking(s, t).Some?
    ensures Numbered(StepSendBlocking(s, t).value)
  {}

  lemma NumberedSignal(s: State, t: nat)
    requires Numbered(s) && StepSignal(s, t).Some?
    ensures Numbered(StepSignal(s, t).value)
  {}

  lemma NumberedByCaller(s: State, e: Event)
    requires Numbered(s) && Caller(e) && !e.SendBlocking? && !e.Signal? && Step(s, e).Some?
    ensures Numbered(Step(s, e).value)
  {}

  lemma NumberedTake(s: State)
    requires Numbered(s) && StepTake(s).Some?
    ensures Numbered(StepTake(s).value)
  {}

  lemma NumberedWrite(s: State, ok: bool)
    requires Numbered(s) && StepWriteDone(s, ok).Some?
    ensures Numbered(StepWriteDone(s, ok).value)
  {}

  lemma NumberedReceive(s: State)
    requires Numbered(s) && StepReceive(s).Some?
    ensures Numbered(StepReceive(s).value)
  {}

  lemma NumberedByWriter(s: State, e: Event)
    requires Numbered(s) && !Caller(e) && !e.Take? && !e.WriteDone? && !e.Receive? && Step(s, e).Some?
    ensures Numbered(Step(s, e).value)
  {
    hide Numbered;
    NumberedKept(s, Step(s, e).value);
  }

  lemma NumberedKept(s: State, s': State)
    requires Numbered(s) && s'.log == s.log && s'.channel == s.channel && s'.mailbox == s.mailbox
    requires s'.submitted == s.submitted && (Held(s') == Held(s) || Held(s').None?)
    ensures Numbered(s')
  {}

  lemma {:induction false} RunNumbered(s: State, events: seq<Event>)
    requires Numbered(s) && Run(s, events).Some?
    ensures Numbered(Run(s, events).value)
  {
    hide Numbered;
    if |events| > 0 {
      var front, e := events[..|events| - 1], events[|events| - 1];
      RunNumbered(s, front);
      var s1 := Run(s, front).value;
      if e.SendBlocking? {
        NumberedSend(s1, e.thread);
      } else if e.Signal? {
        NumberedSignal(s1, e.thread);
      } else if Caller(e) {
        NumberedByCaller(s1, e);
      } else if e.Take? {
        NumberedTake(s1);
      } else if e.WriteDone? {
        NumberedWrite(s1, e.ok);
      } else if e.Receive? {
        NumberedReceive(s1);
      } else {
        NumberedByWriter(s1, e);
      }
    }
  }

  lemma AlwaysNumbered(s: State)
    requires Reachable(s)
    ensures Numbered(s)
  {
    hide Run, Reachable;
    var throttle, now, events := Origin(s);
    RunNumbered(Init(throttle, now), events);
  }
}
