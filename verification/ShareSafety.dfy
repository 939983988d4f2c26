/** One pass at a time, no share lost or duplicated. */
module ShareSafety {
  import opened ShareModel

  /** At most one pass runs, and the flag says whether one does. */
  ghost predicate SinglePass(s: State) {
    |s.passes| <= 1 && (s.inFlight <==> |s.passes| == 1)
  }

  /** Shares a pass has taken and not settled. */
  function Held(pass: Pass): multiset<Share> {
    match pass
    case AwaitingKey(_, _, batch) => multiset(batch)
    case Working(_, _, todo, retryQueue, _) => multiset(todo) + multiset(retryQueue)
    case _ => multiset{}
  }

  function Taken(s: State): multiset<Share> {
    if |s.passes| == 1 then Held(s.passes[0]) else multiset{}
  }

  /** Every arrived share is in exactly one place. */
  ghost predicate Conserved(s: State) {
    s.arrived == multiset(s.pending) + Taken(s) + multiset(s.decrypted) + s.quarantined + s.oversize
  }

  lemma SinglePassStep(s: State, e: Event)
    requires SinglePass(s) && Step(s, e).Some?
    ensures SinglePass(Step(s, e).value)
  {}

  lemma {:induction false} SplitAll(pending: seq<Share>, retry: map<Id, Retry>, now: int)
    ensures multiset(Split(pending, retry, now, true)) + multiset(Split(pending, retry, now, false))
            == multiset(pending)
  {
    if |pending| > 0 {
      SplitAll(pending[..|pending| - 1], retry, now);
      assert pending == pending[..|pending| - 1] + [pending[|pending| - 1]];
    }
  }

  /** A decoded share leaves the pass, or moves to its retry queue. */
  lemma DecodeTakes(s: State, p: nat, ok: bool)
    requires SinglePass(s) && StepDecode(s, p, ok).Some?
    ensures var s' := StepDecode(s, p, ok).value;
            Taken(s) == Taken(s') + if |s'.passes[p].retryQueue| == |s.passes[p].retryQueue|
                                    then multiset{s.passes[p].todo[0]} else multiset{}
  {
    hide AfterFailure, Oversize, Taken, Held, AttemptsOf;
    var pass, s' := s.passes[p], StepDecode(s, p, ok).value;
    assert s'.passes[p].Working? && s'.passes[p].todo == pass.todo[1..] && |s'.passes| == 1;
    HeldStep(pass.todo, pass.retryQueue, s'.passes[p].retryQueue);
    TakenWorking(s);
    TakenWorking(s');
  }

  lemma TakenWorking(s: State)
    requires |s.passes| == 1 && s.passes[0].Working?
    ensures Taken(s) == multiset(s.passes[0].todo) + multiset(s.passes[0].retryQueue)
  {}

  lemma HeldStep(todo: seq<Share>, queue: seq<Share>, queue': seq<Share>)
    requires todo != [] && (queue' == queue || queue' == queue + [todo[0]])
    ensures multiset(todo) + multiset(queue)
            == multiset(todo[1..]) + multiset(queue') + if |queue'| == |queue| then multiset{todo[0]} else multiset{}
  {
    assert todo == [todo[0]] + todo[1..];
  }

  lemma Settle(a: multiset<Share>, p: multiset<Share>, t: multiset<Share>, d: multiset<Share>,
               q: multiset<Share>, o: multiset<Share>, t': multiset<Share>, x: multiset<Share>)
    requires a == p + t + d + q + o && t == t' + x
    ensures a == p + t' + (d + x) + q + o && a == p + t' + d + (q + x) + o && a == p + t' + d + q + (o + x)
  {}

  lemma DecodeConserves(s: State, p: nat, ok: bool)
    requires SinglePass(s) && Conserved(s) && StepDecode(s, p, ok).Some?
    ensures Conserved(StepDecode(s, p, ok).value)
  {
    hide AfterFailure, Oversize, Taken, AttemptsOf;
    DecodeTakes(s, p, ok);
    var share := s.passes[p].todo[0];
    var s' := StepDecode(s, p, ok).value;
    assert multiset(s.decrypted + [share]) == multiset(s.decrypted) + multiset{share};
    Settle(s.arrived, multiset(s.pending), Taken(s), multiset(s.decrypted), s.quarantined, s.oversize, Taken(s'),
           if |s'.passes[p].retryQueue| == |s.passes[p].retryQueue| then multiset{share} else multiset{});
  }

  lemma PartitionConserves(s: State, p: nat)
    requires SinglePass(s) && Conserved(s) && StepPartition(s, p).Some?
    ensures Conserved(StepPartition(s, p).value)
  {
    SplitAll(s.pending, s.retry, s.passes[p].began);
  }

  lemma ArriveConserves(s: State, share: Share)
    requires Conserved(s)
    ensures Conserved(Step(s, Arrive(share)).value)
  {
    hide Taken;
    var s' := Step(s, Arrive(share)).value;
    assert Taken(s') == Taken(s) by { SameTaken(s, s'); }
    assert multiset(s'.pending) == multiset(s.pending) + multiset{share};
  }

  lemma SameTaken(s: State, s': State)
    requires s'.passes == s.passes
    ensures Taken(s') == Taken(s)
  {}

  lemma RequeueConserves(s: State, p: nat)
    requires SinglePass(s) && Conserved(s) && StepRequeue(s, p).Some?
    ensures Conserved(StepRequeue(s, p).value)
  {
    hide Keep;
  }

  lemma KeyTakes(s: State, p: nat, loaded: bool)
    requires SinglePass(s) && StepKey(s, p, loaded).Some?
    ensures Taken(StepKey(s, p, loaded).value) == Taken(s)
  {
    hide AfterKeyFailure;
    var batch := s.passes[p].batch;
    assert multiset(batch) + multiset([]) == multiset(batch) && multiset([]) + multiset(batch) == multiset(batch);
  }

  lemma ClockTakes(s: State, p: nat)
    requires SinglePass(s) && StepClock(s, p).Some?
    ensures Taken(StepClock(s, p).value) == Taken(s)
  {}

  lemma AckTakes(s: State, p: nat, ok: bool)
    requires SinglePass(s) && StepAck(s, p, ok).Some?
    ensures Taken(StepAck(s, p, ok).value) == Taken(s)
  {}

  lemma EndTakes(s: State, p: nat)
    requires SinglePass(s) && StepEnd(s, p).Some?
    ensures Taken(StepEnd(s, p).value) == Taken(s)
  {}

  /** Every other step leaves each share where it was. */
  lemma OtherTakes(s: State, e: Event)
    requires SinglePass(s) && !e.Decode? && !e.Partition? && !e.Arrive? && !e.Requeue? && Step(s, e).Some?
    ensures var s' := Step(s, e).value;
            && Taken(s') == Taken(s) && s'.pending == s.pending && s'.decrypted == s.decrypted
            && s'.quarantined == s.quarantined && s'.oversize == s.oversize && s'.arrived == s.arrived
  {
    hide AfterKeyFailure, AnyDue, Keep, Taken, Held;
    if e.Key? {
      KeyTakes(s, e.pass, e.loaded);
    } else if e.Clock? {
      ClockTakes(s, e.pass);
    } else if e.Ack? {
      AckTakes(s, e.pass, e.ok);
    } else if e.End? {
      EndTakes(s, e.pass);
    } else if e.Start? {
      StartTakes(s, e.thread);
    } else {
      SameTaken(s, Step(s, e).value);
    }
  }

  lemma StartTakes(s: State, t: nat)
    requires SinglePass(s) && StepStart(s, t).Some?
    ensures Taken(StepStart(s, t).value) == Taken(s)
  {}

  lemma StillConserved(s: State, s': State)
    requires Conserved(s) && Taken(s') == Taken(s) && s'.pending == s.pending && s'.decrypted == s.decrypted
    requires s'.quarantined == s.quarantined && s'.oversize == s.oversize && s'.arrived == s.arrived
    ensures Conserved(s')
  {}

  lemma ConservedStep(s: State, e: Event)
    requires SinglePass(s) && Conserved(s) && Step(s, e).Some?
    ensures Conserved(Step(s, e).value)
  {
    hide Conserved, SinglePass;
    if e.Decode? {
      DecodeConserves(s, e.pass, e.ok);
    } else if e.Partition? {
      PartitionConserves(s, e.pass);
    } else if e.Arrive? {
      ArriveConserves(s, e.share);
    } else if e.Requeue? {
      RequeueConserves(s, e.pass);
    } else {
      OtherTakes(s, e);
      StillConserved(s, Step(s, e).value);
    }
  }

  lemma {:induction false} RunConserves(s: State, events: seq<Event>)
    requires SinglePass(s) && Conserved(s) && Run(s, events).Some?
    ensures SinglePass(Run(s, events).value) && Conserved(Run(s, events).value)
  {
    hide Step, Conserved, SinglePass;
    if |events| > 0 {
      var front, e := events[..|events| - 1], events[|events| - 1];
      RunConserves(s, front);
      SinglePassStep(Run(s, front).value, e);
      ConservedStep(Run(s, front).value, e);
    }
  }

  /** In every interleaving at most one pass runs and shares are conserved. */
  lemma AlwaysConserved(s: State)
    requires Reachable(s)
    ensures |s.passes| <= 1 && (s.inFlight <==> |s.passes| == 1)
    ensures s.arrived == multiset(s.pending) + Taken(s) + multiset(s.decrypted) + s.quarantined + s.oversize
  {
    hide Run, Reachable;
    var now, maxSize, events := Origin(s);
    RunConserves(Init(now, maxSize), events);
  }

  /** Between passes nothing is taken: each arrived share is queued, decrypted, quarantined or oversize. */
  lemma IdleConserved(s: State)
    requires Reachable(s) && !s.inFlight
    ensures s.arrived == multiset(s.pending) + multiset(s.decrypted) + s.quarantined + s.oversize
  {
    hide Reachable;
    AlwaysConserved(s);
  }

  /******* Queue order *******/

  /** The shares delivered by a run, in order. */
  function Arrivals(events: seq<Event>): seq<Share> {
    if |events| == 0 then []
    else
      var front, e := Arrivals(events[..|events| - 1]), events[|events| - 1];
      if e.Arrive? then front + [e.share] else front
  }

  lemma PendingStep(s: State, e: Event)
    requires Step(s, e).Some? && !e.Partition? && !e.Requeue?
    ensures Step(s, e).value.pending == if e.Arrive? then s.pending + [e.share] else s.pending
  {
    hide AfterFailure, AfterKeyFailure, AnyDue, Oversize, BackoffDelay;
  }

  lemma {:induction false} PendingGrows(s: State, events: seq<Event>)
    requires Run(s, events).Some? && forall e | e in events :: !e.Partition? && !e.Requeue?
    ensures Run(s, events).value.pending == s.pending + Arrivals(events)
  {
    hide Step;
    if |events| > 0 {
      var front, e := events[..|events| - 1], events[|events| - 1];
      assert e in events;
      PendingGrows(s, front);
      PendingStep(Run(s, front).value, e);
    }
  }

  /**
   From the moment a pass takes its batch to the moment it requeues, whatever arrives in
   between: the shares to retry come first, then the deferred ones, then the new ones.
   */
  lemma RequeuedComeFirst(s: State, p: nat, events: seq<Event>, q: nat)
    requires StepPartition(s, p).Some? && Run(StepPartition(s, p).value, events).Some?
    requires forall e | e in events :: !e.Partition? && !e.Requeue?
    requires StepRequeue(Run(StepPartition(s, p).value, events).value, q).Some?
    ensures var end := Run(StepPartition(s, p).value, events).value;
            StepRequeue(end, q).value.pending
            == end.passes[q].retryQueue + (Split(s.pending, s.retry, s.passes[p].began, false) + Arrivals(events))
  {
    PendingGrows(StepPartition(s, p).value, events);
  }
}
