/** How often and how soon a share is tried again, when share ids are unique. */
module ShareRetries {
  import opened Common
  import opened ShareModel
  import opened ShareSafety

  /** No id arrived twice. */
  ghost predicate UniqueIds(arrived: multiset<Share>) {
    && (forall x | x in arrived :: arrived[x] == 1)
    && (forall x, y | x in arrived && y in arrived && x.id == y.id :: x == y)
  }

  /******* The log of failed attempts *******/

  ghost predicate IsEntry(log: seq<Failure>, i: int, id: Id, number: nat) {
    0 <= i < |log| && log[i].id == id && log[i].number == number
  }

  /** Attempt `j` follows attempt `i` of the same share after the backoff delay. */
  ghost predicate Follows(log: seq<Failure>, i: int, j: int) {
    && 0 <= i < j < |log| && log[i].id == log[j].id && log[j].number == log[i].number + 1
    && log[i].at + BackoffDelay(log[i].number) <= log[j].began
  }

  /** Attempts of a share are numbered 1 to 5 in order, each a backoff delay after the one before. */
  ghost predicate LogOk(log: seq<Failure>) {
    && (forall j | 0 <= j < |log| :: 1 <= log[j].number <= 5)
    && (forall j | 0 <= j < |log| && log[j].number > 1 :: exists i :: Follows(log, i, j))
    && (forall i, j | 0 <= i < j < |log| && log[i].id == log[j].id :: log[i].number < log[j].number)
  }

  /** `attempts` is how often the share has failed so far. */
  ghost predicate History(log: seq<Failure>, id: Id, attempts: nat) {
    && (forall i | 0 <= i < |log| && log[i].id == id :: 1 <= log[i].number <= attempts)
    && (attempts > 0 ==> exists i :: IsEntry(log, i, id, attempts))
  }

  /** The last failure lies at least its backoff delay before `time`. */
  ghost predicate Spaced(log: seq<Failure>, id: Id, attempts: nat, time: int) {
    forall i | IsEntry(log, i, id, attempts) :: log[i].at + BackoffDelay(attempts) <= time
  }

  /** A queued share: its stored retry time respects the backoff. */
  ghost predicate BackedOff(log: seq<Failure>, retry: map<Id, Retry>, id: Id) {
    && History(log, id, AttemptsOf(retry, id)) && AttemptsOf(retry, id) < MAX_DECRYPT_ATTEMPTS
    && (id in retry ==> Spaced(log, id, retry[id].attempts, retry[id].nextRetryAt))
  }

  /** A share taken by the pass that began at `began`. */
  ghost predicate Ready(log: seq<Failure>, retry: map<Id, Retry>, began: int, id: Id) {
    && History(log, id, AttemptsOf(retry, id)) && AttemptsOf(retry, id) < MAX_DECRYPT_ATTEMPTS
    && (id in retry ==> Spaced(log, id, retry[id].attempts, began))
  }

  ghost predicate AllBackedOff(log: seq<Failure>, retry: map<Id, Retry>, xs: seq<Share>) {
    forall i | 0 <= i < |xs| :: BackedOff(log, retry, xs[i].id)
  }

  ghost predicate AllReady(log: seq<Failure>, retry: map<Id, Retry>, began: int, xs: seq<Share>) {
    forall i | 0 <= i < |xs| :: Ready(log, retry, began, xs[i].id)
  }

  ghost predicate PassOk(s: State, pass: Pass) {
    match pass
    case Starting => true
    case Clocked(began, _) => began <= s.now
    case AwaitingKey(began, _, batch) => began <= s.now && AllReady(s.failures, s.retry, began, batch)
    case Working(began, _, todo, retryQueue, _) =>
      began <= s.now && AllReady(s.failures, s.retry, began, todo) && AllBackedOff(s.failures, s.retry, retryQueue)
    case Acking(_) => true
  }

  ghost predicate HasArrived(arrived: multiset<Share>, id: Id) {
    exists x :: x in arrived && x.id == id
  }

  ghost predicate Known(s: State) {
    && (forall id | id in s.retry :: s.retry[id].attempts < MAX_DECRYPT_ATTEMPTS && HasArrived(s.arrived, id))
    && (forall i | 0 <= i < |s.failures| :: HasArrived(s.arrived, s.failures[i].id))
  }

  /** The share has failed a fifth time. */
  ghost predicate FailedOut(log: seq<Failure>, id: Id) {
    exists i :: IsEntry(log, i, id, 5)
  }

  /** Quarantine and the fifth failure come together. */
  ghost predicate QuarantineOk(s: State) {
    && (forall x | x in s.quarantined :: x in s.arrived && FailedOut(s.failures, x.id))
    && (forall i | 0 <= i < |s.failures| && s.failures[i].number == MAX_DECRYPT_ATTEMPTS ::
          HasArrived(s.quarantined, s.failures[i].id))
  }

  ghost predicate Counted(s: State) {
    && LogOk(s.failures) && Known(s) && QuarantineOk(s)
    && AllBackedOff(s.failures, s.retry, s.pending)
    && (|s.passes| == 1 ==> PassOk(s, s.passes[0]))
  }

  /******* Live shares are distinct *******/

  function PassShares(pass: Pass): seq<Share> {
    match pass
    case AwaitingKey(_, _, batch) => batch
    case Working(_, _, todo, retryQueue, _) => todo + retryQueue
    case _ => []
  }

  function Live(s: State): seq<Share> {
    s.pending + if |s.passes| == 1 then PassShares(s.passes[0]) else []
  }

  ghost predicate DistinctShares(xs: seq<Share>) {
    forall i, j | 0 <= i < j < |xs| :: xs[i].id != xs[j].id
  }

  lemma DistinctFrom(xs: seq<Share>, arrived: multiset<Share>)
    requires multiset(xs) <= arrived && UniqueIds(arrived)
    ensures DistinctShares(xs)
    ensures forall i | 0 <= i < |xs| :: xs[i] in arrived
  {
    forall i | 0 <= i < |xs| ensures xs[i] in arrived { assert xs[i] in multiset(xs); }
    forall i, j | 0 <= i < j < |xs| ensures xs[i] != xs[j] {
      TwiceIn(xs, i, j);
    }
  }

  lemma TwiceIn(xs: seq<Share>, i: nat, j: nat)
    requires i < j < |xs|
    ensures xs[i] == xs[j] ==> multiset(xs)[xs[i]] >= 2
  {
    assert xs == xs[..j] + xs[j..];
    assert xs[i] == xs[..j][i] && xs[j] == xs[j..][0];
    assert xs[i] in multiset(xs[..j]) && xs[j] in multiset(xs[j..]);
  }

  lemma LiveArrived(s: State)
    requires SinglePass(s) && Conserved(s)
    ensures multiset(Live(s)) <= s.arrived
  {
    if |s.passes| == 1 {
      assert multiset(PassShares(s.passes[0])) == Held(s.passes[0]);
    }
  }

  /******* One step *******/

  lemma {:induction false} SplitMembers(pending: seq<Share>, retry: map<Id, Retry>, now: int, due: bool)
    ensures forall x | x in Split(pending, retry, now, due) :: x in pending && IsDue(retry, now, x) == due
  {
    if |pending| > 0 { SplitMembers(pending[..|pending| - 1], retry, now, due); }
  }

  lemma FreshHistory(s: State, id: Id)
    requires Known(s) && !HasArrived(s.arrived, id)
    ensures BackedOff(s.failures, s.retry, id)
  {
    forall i | 0 <= i < |s.failures| ensures s.failures[i].id != id {
      assert HasArrived(s.arrived, s.failures[i].id);
    }
  }

  lemma ArrivedMore(arrived: multiset<Share>, x: Share, id: Id)
    ensures HasArrived(arrived, id) ==> HasArrived(arrived + multiset{x}, id)
  {
    if HasArrived(arrived, id) {
      var y :| y in arrived && y.id == id;
      assert y in arrived + multiset{x};
    }
  }

  lemma ArriveFresh(arrived: multiset<Share>, x: Share)
    requires UniqueIds(arrived + multiset{x})
    ensures !HasArrived(arrived, x.id) && UniqueIds(arrived)
  {
    var more := arrived + multiset{x};
    forall y | y in arrived ensures y.id != x.id && arrived[y] == 1 {
      assert y in more && x in more && more[x] == 1;
    }
    assert forall y | y in arrived :: y in more;
  }

  lemma ArriveKnown(s: State, x: Share)
    requires Known(s)
    ensures Known(s.(arrived := s.arrived + multiset{x}))
  {
    hide HasArrived;
    forall id
      ensures HasArrived(s.arrived, id) ==> HasArrived(s.arrived + multiset{x}, id)
    {
      ArrivedMore(s.arrived, x, id);
    }
  }

  lemma ArriveQuarantine(s: State, x: Share)
    requires QuarantineOk(s)
    ensures QuarantineOk(s.(arrived := s.arrived + multiset{x}))
  {
    hide FailedOut, HasArrived;
  }

  lemma BackedOffAppend(log: seq<Failure>, retry: map<Id, Retry>, xs: seq<Share>, x: Share)
    requires AllBackedOff(log, retry, xs) && BackedOff(log, retry, x.id)
    ensures AllBackedOff(log, retry, xs + [x])
  {
    hide BackedOff;
  }

  lemma PassKept(s: State, s': State, pass: Pass)
    requires PassOk(s, pass) && s'.failures == s.failures && s'.retry == s.retry && s.now <= s'.now
    ensures PassOk(s', pass)
  {
    hide AllReady, AllBackedOff;
  }

  lemma ArriveCounted(s: State, x: Share)
    requires Counted(s) && UniqueIds(s.arrived + multiset{x})
    ensures Counted(Step(s, Arrive(x)).value)
  {
    hide LogOk, BackedOff, UniqueIds, Known, QuarantineOk, AllBackedOff, PassOk, HasArrived;
    var s' := Step(s, Arrive(x)).value;
    var more := s.(arrived := s'.arrived);
    ArriveFresh(s.arrived, x);
    FreshHistory(s, x.id);
    BackedOffAppend(s.failures, s.retry, s.pending, x);
    ArriveKnown(s, x);
    ArriveQuarantine(s, x);
    SameFacts(more, s');
    if |s.passes| == 1 { PassKept(s, s', s.passes[0]); }
  }

  lemma DueReady(log: seq<Failure>, retry: map<Id, Retry>, began: int, x: Share)
    requires BackedOff(log, retry, x.id) && IsDue(retry, began, x)
    ensures Ready(log, retry, began, x.id)
  {}

  lemma MembersBackedOff(log: seq<Failure>, retry: map<Id, Retry>, xs: seq<Share>, x: Share)
    requires AllBackedOff(log, retry, xs) && x in xs
    ensures BackedOff(log, retry, x.id)
  {}

  lemma PartitionCounted(s: State, p: nat)
    requires SinglePass(s) && Counted(s) && StepPartition(s, p).Some?
    ensures Counted(StepPartition(s, p).value)
  {
    hide LogOk, BackedOff, Ready, Known, QuarantineOk, IsDue, Split;
    var began := s.passes[p].began;
    var due, deferred := Split(s.pending, s.retry, began, true), Split(s.pending, s.retry, began, false);
    SplitMembers(s.pending, s.retry, began, true);
    SplitMembers(s.pending, s.retry, began, false);
    forall i | 0 <= i < |due| ensures Ready(s.failures, s.retry, began, due[i].id) {
      var x := due[i];
      assert x in due;
      MembersBackedOff(s.failures, s.retry, s.pending, x);
      DueReady(s.failures, s.retry, began, x);
    }
    forall i | 0 <= i < |deferred| ensures BackedOff(s.failures, s.retry, deferred[i].id) {
      var x := deferred[i];
      assert x in deferred;
      MembersBackedOff(s.failures, s.retry, s.pending, x);
    }
    SameFacts(s, StepPartition(s, p).value);
  }

  /** Facts that depend on neither queue nor pass. */
  lemma SameFacts(s: State, s': State)
    requires s'.arrived == s.arrived && s'.failures == s.failures && s'.retry == s.retry
             && s'.quarantined == s.quarantined
    ensures LogOk(s.failures) ==> LogOk(s'.failures)
    ensures Known(s) ==> Known(s')
    ensures QuarantineOk(s) ==> QuarantineOk(s')
  {}

  /** A keychain failure moves a taken share's retry time and counts no attempt. */
  lemma KeyFailureBacksOff(log: seq<Failure>, retry: map<Id, Retry>, began: int, batch: seq<Share>, at: int, i: nat)
    requires i < |batch| && Ready(log, retry, began, batch[i].id) && began <= at
    ensures var retry' := AfterKeyFailure(retry, batch, at);
            AttemptsOf(retry', batch[i].id) == AttemptsOf(retry, batch[i].id) && BackedOff(log, retry', batch[i].id)
  {
    var id := batch[i].id;
    assert id in IdsIn(batch);
  }

  lemma KeyLeavesOthers(log: seq<Failure>, retry: map<Id, Retry>, batch: seq<Share>, at: int, id: Id)
    requires id !in IdsIn(batch) && BackedOff(log, retry, id)
    ensures BackedOff(log, AfterKeyFailure(retry, batch, at), id)
  {}

  lemma KeyKnown(s: State, batch: seq<Share>, at: int)
    requires Known(s)
    requires forall i | 0 <= i < |batch| ::
               batch[i] in s.arrived && AttemptsOf(s.retry, batch[i].id) < MAX_DECRYPT_ATTEMPTS
    ensures Known(s.(retry := AfterKeyFailure(s.retry, batch, at)))
  {
    forall id | id in IdsIn(batch) ensures HasArrived(s.arrived, id) && AttemptsOf(s.retry, id) < MAX_DECRYPT_ATTEMPTS {
      var i :| 0 <= i < |batch| && batch[i].id == id;
      assert batch[i] in s.arrived;
    }
  }

  lemma KeyBatch(s: State, began: int, batch: seq<Share>, at: int)
    requires AllReady(s.failures, s.retry, began, batch) && began <= at
    ensures AllBackedOff(s.failures, AfterKeyFailure(s.retry, batch, at), batch)
    ensures forall i | 0 <= i < |batch| :: AttemptsOf(s.retry, batch[i].id) < MAX_DECRYPT_ATTEMPTS
  {
    hide BackedOff, Ready, AfterKeyFailure;
    forall i | 0 <= i < |batch|
      ensures BackedOff(s.failures, AfterKeyFailure(s.retry, batch, at), batch[i].id)
      ensures AttemptsOf(s.retry, batch[i].id) < MAX_DECRYPT_ATTEMPTS
    {
      KeyFailureBacksOff(s.failures, s.retry, began, batch, at, i);
      ReadyBelow(s.failures, s.retry, began, batch[i].id);
    }
  }

  lemma KeyPending(s: State, batch: seq<Share>, at: int)
    requires AllBackedOff(s.failures, s.retry, s.pending)
    requires forall i | 0 <= i < |s.pending| :: s.pending[i].id !in IdsIn(batch)
    ensures AllBackedOff(s.failures, AfterKeyFailure(s.retry, batch, at), s.pending)
  {
    hide BackedOff, AfterKeyFailure, IdsIn;
    forall i | 0 <= i < |s.pending|
      ensures BackedOff(s.failures, AfterKeyFailure(s.retry, batch, at), s.pending[i].id)
    {
      KeyLeavesOthers(s.failures, s.retry, batch, at, s.pending[i].id);
    }
  }

  lemma BatchApart(s: State, p: nat)
    requires |s.passes| == 1 && p == 0 && s.passes[p].AwaitingKey?
    requires DistinctShares(Live(s)) && multiset(Live(s)) <= s.arrived
    ensures forall i | 0 <= i < |s.pending| :: s.pending[i].id !in IdsIn(s.passes[p].batch)
    ensures forall j | 0 <= j < |s.passes[p].batch| :: s.passes[p].batch[j] in s.arrived
  {
    var batch := s.passes[p].batch;
    forall i, j | 0 <= i < |s.pending| && 0 <= j < |batch| ensures s.pending[i].id != batch[j].id {
      assert Live(s)[i] == s.pending[i] && Live(s)[|s.pending| + j] == batch[j];
    }
    forall j | 0 <= j < |batch| ensures batch[j] in s.arrived {
      assert Live(s)[|s.pending| + j] == batch[j];
      assert batch[j] in multiset(Live(s));
    }
  }

  lemma KeyCounted(s: State, p: nat, loaded: bool)
    requires SinglePass(s) && Counted(s) && StepKey(s, p, loaded).Some?
    requires DistinctShares(Live(s)) && multiset(Live(s)) <= s.arrived
    ensures Counted(StepKey(s, p, loaded).value)
  {
    hide LogOk, AllBackedOff, AllReady, Known, QuarantineOk, AfterKeyFailure, Live, IdsIn;
    var s', began, batch := StepKey(s, p, loaded).value, s.passes[p].began, s.passes[p].batch;
    if loaded {
      SameFacts(s, s');
      NoneBackedOff(s.failures, s.retry, began);
    } else {
      var at := s.now + KEY_RETRY_DELAY;
      BatchApart(s, p);
      KeyBatch(s, began, batch, at);
      KeyPending(s, batch, at);
      KeyKnown(s, batch, at);
      NoneBackedOff(s.failures, s'.retry, began);
      KnownKept(s.(retry := s'.retry), s');
      QuarantineKept(s, s');
    }
  }

  lemma NoneBackedOff(log: seq<Failure>, retry: map<Id, Retry>, began: int)
    ensures AllBackedOff(log, retry, []) && AllReady(log, retry, began, [])
  {}

  lemma ReadyBelow(log: seq<Failure>, retry: map<Id, Retry>, began: int, id: Id)
    requires Ready(log, retry, began, id)
    ensures AttemptsOf(retry, id) < MAX_DECRYPT_ATTEMPTS
  {}

  lemma QuarantineKept(s: State, s': State)
    requires QuarantineOk(s) && s'.arrived == s.arrived && s'.failures == s.failures && s'.quarantined == s.quarantined
    ensures QuarantineOk(s')
  {}

  lemma RequeueCounted(s: State, p: nat)
    requires SinglePass(s) && Counted(s) && StepRequeue(s, p).Some?
    ensures Counted(StepRequeue(s, p).value)
  {
    hide LogOk, BackedOff, Ready, Known, QuarantineOk, Keep;
    SameFacts(s, StepRequeue(s, p).value);
  }

  /******* One decryption *******/

  /** Dropping or forgetting one id leaves the others as they were. */
  lemma ForgetLeaves(log: seq<Failure>, retry: map<Id, Retry>, gone: Id, id: Id, began: int)
    requires id != gone
    ensures BackedOff(log, retry, id) ==> BackedOff(log, retry - {gone}, id)
    ensures Ready(log, retry, began, id) ==> Ready(log, retry - {gone}, began, id)
  {}

  lemma EntryKept(log: seq<Failure>, f: Failure, i: int, id: Id, number: nat)
    requires f.id != id
    ensures IsEntry(log + [f], i, id, number) <==> IsEntry(log, i, id, number)
    ensures IsEntry(log, i, id, number) ==> (log + [f])[i] == log[i]
  {}

  lemma HistoryKept(log: seq<Failure>, f: Failure, id: Id, attempts: nat, time: int)
    requires f.id != id
    ensures History(log, id, attempts) ==> History(log + [f], id, attempts)
    ensures Spaced(log, id, attempts, time) ==> Spaced(log + [f], id, attempts, time)
  {
    if History(log, id, attempts) && attempts > 0 {
      var i :| IsEntry(log, i, id, attempts);
      assert IsEntry(log + [f], i, id, attempts);
    }
    forall i | IsEntry(log + [f], i, id, attempts)
      ensures IsEntry(log, i, id, attempts)
    {
      EntryKept(log, f, i, id, attempts);
    }
  }

  /** A failure of one share leaves the others as they were. */
  lemma FailureLeaves(log: seq<Failure>, retry: map<Id, Retry>, f: Failure, id: Id, began: int)
    requires id != f.id
    ensures BackedOff(log, retry, id) ==> BackedOff(log + [f], AfterFailure(retry, f.id, f.at), id)
    ensures Ready(log, retry, began, id) ==> Ready(log + [f], AfterFailure(retry, f.id, f.at), began, id)
  {
    hide History, Spaced, BackoffDelay;
    var retry' := AfterFailure(retry, f.id, f.at);
    assert id in retry' <==> id in retry;
    assert id in retry ==> retry'[id] == retry[id];
    HistoryKept(log, f, id, AttemptsOf(retry, id), began);
    if id in retry {
      HistoryKept(log, f, id, retry[id].attempts, retry[id].nextRetryAt);
    }
  }

  /** The log stays in order when a ready share fails. */
  lemma FailureLogged(log: seq<Failure>, retry: map<Id, Retry>, f: Failure)
    requires LogOk(log) && Ready(log, retry, f.began, f.id) && f.number == AttemptsOf(retry, f.id) + 1
    ensures LogOk(log + [f])
  {
    hide BackoffDelay;
    var more := log + [f];
    var n := |log|;
    forall j | 0 <= j < |more| && more[j].number > 1 ensures exists i :: Follows(more, i, j) {
      if j < n {
        assert log[j].number > 1;
        var i :| Follows(log, i, j);
        assert Follows(more, i, j);
      } else {
        var i :| IsEntry(log, i, f.id, AttemptsOf(retry, f.id));
        assert Follows(more, i, n);
      }
    }
  }

  /** A failed share that is tried again waits out its backoff. */
  lemma FailureBacksOff(log: seq<Failure>, retry: map<Id, Retry>, f: Failure)
    requires Ready(log, retry, f.began, f.id) && f.number == AttemptsOf(retry, f.id) + 1
             && f.number < MAX_DECRYPT_ATTEMPTS
    ensures BackedOff(log + [f], AfterFailure(retry, f.id, f.at), f.id)
  {
    hide BackoffDelay;
    var more, n := log + [f], |log|;
    assert IsEntry(more, n, f.id, f.number);
    forall i | 0 <= i < n ensures !IsEntry(more, i, f.id, f.number) { assert more[i] == log[i]; }
  }

  lemma FailureKnown(s: State, f: Failure)
    requires Known(s) && HasArrived(s.arrived, f.id)
    ensures Known(s.(retry := AfterFailure(s.retry, f.id, f.at), failures := s.failures + [f]))
  {
    hide HasArrived, BackoffDelay;
  }

  lemma FailedOutKept(log: seq<Failure>, f: Failure, id: Id)
    requires FailedOut(log, id)
    ensures FailedOut(log + [f], id)
  {
    var i :| IsEntry(log, i, id, MAX_DECRYPT_ATTEMPTS);
    assert IsEntry(log + [f], i, id, MAX_DECRYPT_ATTEMPTS);
  }

  lemma FailedOutNow(log: seq<Failure>, f: Failure)
    requires f.number == MAX_DECRYPT_ATTEMPTS
    ensures FailedOut(log + [f], f.id)
  {
    assert IsEntry(log + [f], |log|, f.id, MAX_DECRYPT_ATTEMPTS);
  }

  lemma FailureNotLast(s: State, f: Failure)
    requires QuarantineOk(s) && f.number != MAX_DECRYPT_ATTEMPTS
    ensures QuarantineOk(s.(failures := s.failures + [f]))
  {
    hide FailedOut, HasArrived;
    forall x | x in s.quarantined ensures FailedOut(s.failures + [f], x.id) { FailedOutKept(s.failures, f, x.id); }
  }

  lemma FailureQuarantines(s: State, x: Share, f: Failure)
    requires QuarantineOk(s) && x in s.arrived && f.id == x.id && f.number == MAX_DECRYPT_ATTEMPTS
    ensures QuarantineOk(s.(failures := s.failures + [f], quarantined := s.quarantined + multiset{x}))
  {
    hide FailedOut, HasArrived;
    var q := s.quarantined + multiset{x};
    FailedOutNow(s.failures, f);
    forall y | y in q ensures y in s.arrived && FailedOut(s.failures + [f], y.id) {
      if y != x {
        assert y in s.quarantined;
        FailedOutKept(s.failures, f, y.id);
      }
    }
    ArrivedHas(q, x);
    forall i | 0 <= i < |s.failures| && s.failures[i].number == MAX_DECRYPT_ATTEMPTS
      ensures HasArrived(q, s.failures[i].id)
    {
      ArrivedMore(s.quarantined, x, s.failures[i].id);
    }
  }

  /** The other live shares of a working pass have other ids. */
  lemma OthersApart(s: State, p: nat)
    requires SinglePass(s) && p < |s.passes| && s.passes[p].Working? && s.passes[p].todo != []
    requires DistinctShares(Live(s))
    ensures var pass, id := s.passes[p], s.passes[p].todo[0].id;
            && (forall i | 0 <= i < |s.pending| :: s.pending[i].id != id)
            && (forall i | 0 <= i < |pass.todo[1..]| :: pass.todo[1..][i].id != id)
            && (forall i | 0 <= i < |pass.retryQueue| :: pass.retryQueue[i].id != id)
  {
    var pass, live, n := s.passes[p], Live(s), |s.pending|;
    assert live[n] == pass.todo[0];
    forall i | 0 <= i < n ensures s.pending[i].id != live[n].id { assert live[i] == s.pending[i]; }
    forall i | 0 <= i < |pass.todo[1..]| ensures pass.todo[1..][i].id != live[n].id {
      assert live[n + 1 + i] == pass.todo[1..][i];
    }
    forall i | 0 <= i < |pass.retryQueue| ensures pass.retryQueue[i].id != live[n].id {
      assert live[n + |pass.todo| + i] == pass.retryQueue[i];
    }
  }

  lemma RestReady(log: seq<Failure>, retry: map<Id, Retry>, began: int, todo: seq<Share>)
    requires todo != [] && AllReady(log, retry, began, todo)
    ensures Ready(log, retry, began, todo[0].id) && AllReady(log, retry, began, todo[1..])
  {
    hide Ready;
    forall i | 0 <= i < |todo[1..]|
      ensures Ready(log, retry, began, todo[1..][i].id)
    {
      assert todo[1..][i] == todo[i + 1];
    }
  }

  lemma AllForget(log: seq<Failure>, retry: map<Id, Retry>, gone: Id, began: int, xs: seq<Share>)
    requires forall i | 0 <= i < |xs| :: xs[i].id != gone
    ensures AllBackedOff(log, retry, xs) ==> AllBackedOff(log, retry - {gone}, xs)
    ensures AllReady(log, retry, began, xs) ==> AllReady(log, retry - {gone}, began, xs)
  {
    hide BackedOff, Ready;
    forall i | 0 <= i < |xs|
      ensures BackedOff(log, retry, xs[i].id) ==> BackedOff(log, retry - {gone}, xs[i].id)
      ensures Ready(log, retry, began, xs[i].id) ==> Ready(log, retry - {gone}, began, xs[i].id)
    {
      ForgetLeaves(log, retry, gone, xs[i].id, began);
    }
  }

  lemma AllLeave(log: seq<Failure>, retry: map<Id, Retry>, f: Failure, began: int, xs: seq<Share>)
    requires forall i | 0 <= i < |xs| :: xs[i].id != f.id
    ensures AllBackedOff(log, retry, xs) ==> AllBackedOff(log + [f], AfterFailure(retry, f.id, f.at), xs)
    ensures AllReady(log, retry, began, xs) ==> AllReady(log + [f], AfterFailure(retry, f.id, f.at), began, xs)
  {
    hide BackedOff, Ready, AfterFailure;
    var retry' := AfterFailure(retry, f.id, f.at);
    forall i | 0 <= i < |xs|
      ensures BackedOff(log, retry, xs[i].id) ==> BackedOff(log + [f], retry', xs[i].id)
      ensures Ready(log, retry, began, xs[i].id) ==> Ready(log + [f], retry', began, xs[i].id)
    {
      FailureLeaves(log, retry, f, xs[i].id, began);
    }
  }

  lemma DecodeOk(s: State, p: nat)
    requires SinglePass(s) && Counted(s) && StepDecode(s, p, true).Some? && DistinctShares(Live(s))
    requires !Oversize(s.passes[p].todo[0], s.passes[p].maxSize)
    ensures Counted(StepDecode(s, p, true).value)
  {
    hide LogOk, AllBackedOff, AllReady, Known, QuarantineOk, Oversize, AfterFailure, DistinctShares;
    var pass, s' := s.passes[p], StepDecode(s, p, true).value;
    var id := pass.todo[0].id;
    OthersApart(s, p);
    RestReady(s.failures, s.retry, pass.began, pass.todo);
    AllForget(s.failures, s.retry, id, pass.began, s.pending);
    AllForget(s.failures, s.retry, id, pass.began, pass.retryQueue);
    AllForget(s.failures, s.retry, id, pass.began, pass.todo[1..]);
    ForgetKnown(s, id);
    KnownKept(s.(retry := s'.retry), s');
    QuarantineKept(s, s');
  }

  lemma ForgetKnown(s: State, id: Id)
    requires Known(s)
    ensures Known(s.(retry := s.retry - {id}))
  {
    hide HasArrived;
  }

  lemma DecodeOversize(s: State, p: nat, ok: bool)
    requires SinglePass(s) && Counted(s) && StepDecode(s, p, ok).Some?
    requires Oversize(s.passes[p].todo[0], s.passes[p].maxSize)
    ensures Counted(StepDecode(s, p, ok).value)
  {
    hide LogOk, BackedOff, Ready, Known, QuarantineOk, Oversize, AfterFailure;
    RestReady(s.failures, s.retry, s.passes[p].began, s.passes[p].todo);
    SameFacts(s, StepDecode(s, p, ok).value);
  }

  /** What a failure leaves of the queues: everything else as it was. */
  lemma FailureQueues(s: State, p: nat, f: Failure)
    requires SinglePass(s) && Counted(s) && StepDecode(s, p, false).Some? && DistinctShares(Live(s))
    requires f.id == s.passes[p].todo[0].id
    ensures var pass, retry' := s.passes[p], AfterFailure(s.retry, f.id, f.at);
            && AllBackedOff(s.failures + [f], retry', s.pending)
            && AllBackedOff(s.failures + [f], retry', pass.retryQueue)
            && AllReady(s.failures + [f], retry', pass.began, pass.todo[1..])
            && Ready(s.failures, s.retry, pass.began, f.id)
  {
    hide LogOk, AllBackedOff, AllReady, Known, QuarantineOk, AfterFailure, DistinctShares, Ready;
    var pass := s.passes[p];
    OthersApart(s, p);
    RestReady(s.failures, s.retry, pass.began, pass.todo);
    AllLeave(s.failures, s.retry, f, pass.began, s.pending);
    AllLeave(s.failures, s.retry, f, pass.began, pass.retryQueue);
    AllLeave(s.failures, s.retry, f, pass.began, pass.todo[1..]);
  }

  /** What a failure adds to the books. */
  lemma FailureBooks(s: State, x: Share, f: Failure)
    requires LogOk(s.failures) && Known(s) && QuarantineOk(s) && x in s.arrived && f.id == x.id
    requires Ready(s.failures, s.retry, f.began, f.id) && f.number == AttemptsOf(s.retry, f.id) + 1
    ensures var quarantined' := if f.number >= MAX_DECRYPT_ATTEMPTS then s.quarantined + multiset{x} else s.quarantined;
            var s' := s.(retry := AfterFailure(s.retry, f.id, f.at), failures := s.failures + [f],
                         quarantined := quarantined');
            LogOk(s'.failures) && Known(s') && QuarantineOk(s')
  {
    hide LogOk, Ready, Known, QuarantineOk, AfterFailure, HasArrived;
    ReadyBelow(s.failures, s.retry, f.began, f.id);
    FailureLogged(s.failures, s.retry, f);
    ArrivedHas(s.arrived, x);
    FailureKnown(s, f);
    var retry' := AfterFailure(s.retry, f.id, f.at);
    var booked := s.(retry := retry', failures := s.failures + [f]);
    if f.number >= MAX_DECRYPT_ATTEMPTS {
      FailureQuarantines(s, x, f);
      KnownKept(booked, booked.(quarantined := s.quarantined + multiset{x}));
      QuarantineKept(s.(failures := s.failures + [f], quarantined := s.quarantined + multiset{x}),
                     booked.(quarantined := s.quarantined + multiset{x}));
    } else {
      FailureNotLast(s, f);
      QuarantineKept(s.(failures := s.failures + [f]), booked);
    }
  }

  lemma DecodeFails(s: State, p: nat)
    requires SinglePass(s) && Counted(s) && StepDecode(s, p, false).Some?
    requires DistinctShares(Live(s)) && multiset(Live(s)) <= s.arrived
    requires !Oversize(s.passes[p].todo[0], s.passes[p].maxSize)
    ensures Counted(StepDecode(s, p, false).value)
  {
    hide LogOk, AllBackedOff, AllReady, Ready, BackedOff, Known, QuarantineOk;
    hide Oversize, AfterFailure, DistinctShares, AttemptsOf, Live;
    var pass, s' := s.passes[p], StepDecode(s, p, false).value;
    var x := pass.todo[0];
    var f := Failure(x.id, AttemptsOf(s.retry, x.id) + 1, pass.began, s.now);
    FailureQueues(s, p, f);
    TodoArrived(s, p);
    FailureBooks(s, x, f);
    var quarantined' := if f.number >= MAX_DECRYPT_ATTEMPTS then s.quarantined + multiset{x} else s.quarantined;
    KnownKept(s.(retry := s'.retry, failures := s'.failures, quarantined := quarantined'), s');
    QuarantineKept(s.(retry := s'.retry, failures := s'.failures, quarantined := quarantined'), s');
    if f.number < MAX_DECRYPT_ATTEMPTS {
      FailureBacksOff(s.failures, s.retry, f);
      BackedOffAppend(s'.failures, s'.retry, pass.retryQueue, x);
    }
  }

  lemma TodoArrived(s: State, p: nat)
    requires |s.passes| == 1 && p == 0 && s.passes[p].Working? && s.passes[p].todo != []
             && multiset(Live(s)) <= s.arrived
    ensures s.passes[p].todo[0] in s.arrived
  {
    assert Live(s)[|s.pending|] == s.passes[p].todo[0];
    assert s.passes[p].todo[0] in multiset(Live(s));
  }

  lemma ArrivedHas(arrived: multiset<Share>, x: Share)
    requires x in arrived
    ensures HasArrived(arrived, x.id)
  {}

  lemma KnownKept(s: State, s': State)
    requires Known(s) && s'.arrived == s.arrived && s'.failures == s.failures && s'.retry == s.retry
    ensures Known(s')
  {}

  /******* Every run *******/

  lemma OtherCounted(s: State, e: Event)
    requires SinglePass(s) && Counted(s) && Step(s, e).Some?
    requires e.Tick? || e.SetMaxSize? || e.Check? || e.Start? || e.Clock? || e.Ack? || e.End?
    ensures Counted(Step(s, e).value)
  {
    hide LogOk, BackedOff, Ready, Known, QuarantineOk, AnyDue;
    SameFacts(s, Step(s, e).value);
  }

  lemma CountedStep(s: State, e: Event)
    requires SinglePass(s) && Conserved(s) && Counted(s) && Step(s, e).Some? && UniqueIds(Step(s, e).value.arrived)
    ensures Counted(Step(s, e).value)
  {
    hide Counted, SinglePass, Conserved, UniqueIds, Live, Oversize;
    if e.Arrive? {
      ArriveCounted(s, e.share);
    } else {
      assert UniqueIds(s.arrived) by { ArrivedSame(s, e); }
      LiveArrived(s);
      DistinctFrom(Live(s), s.arrived);
      if e.Partition? {
        PartitionCounted(s, e.pass);
      } else if e.Key? {
        KeyCounted(s, e.pass, e.loaded);
      } else if e.Requeue? {
        RequeueCounted(s, e.pass);
      } else if e.Decode? {
        if Oversize(s.passes[e.pass].todo[0], s.passes[e.pass].maxSize) {
          DecodeOversize(s, e.pass, e.ok);
        } else if e.ok {
          DecodeOk(s, e.pass);
        } else {
          DecodeFails(s, e.pass);
        }
      } else {
        OtherCounted(s, e);
      }
    }
  }

  lemma ArrivedSame(s: State, e: Event)
    requires Step(s, e).Some? && !e.Arrive?
    ensures Step(s, e).value.arrived == s.arrived
  {}

  lemma UniqueBefore(s: State, e: Event)
    requires Step(s, e).Some? && UniqueIds(Step(s, e).value.arrived)
    ensures UniqueIds(s.arrived)
  {
    hide UniqueIds;
    if e.Arrive? { ArriveFresh(s.arrived, e.share); } else { ArrivedSame(s, e); }
  }

  lemma {:induction false} RunCounted(s: State, events: seq<Event>)
    requires SinglePass(s) && Conserved(s) && Counted(s) && Run(s, events).Some?
             && UniqueIds(Run(s, events).value.arrived)
    ensures Counted(Run(s, events).value)
  {
    hide Step, Counted, SinglePass, Conserved, UniqueIds;
    if |events| > 0 {
      var front, e := events[..|events| - 1], events[|events| - 1];
      UniqueBefore(Run(s, front).value, e);
      RunCounted(s, front);
      RunConserves(s, front);
      CountedStep(Run(s, front).value, e);
    }
  }

  /**
   With unique ids: stored attempt counts stay below five; failed attempts of a share are
   numbered one to five, each at least the exponential delay after the one before; and a
   share is quarantined exactly when its fifth attempt has failed.
   */
  lemma BoundedRetries(s: State)
    requires Reachable(s) && UniqueIds(s.arrived)
    ensures forall id | id in s.retry :: s.retry[id].attempts < 5
    ensures LogOk(s.failures)
    ensures forall x | x in s.arrived ::
              x in s.quarantined <==> FailedOut(s.failures, x.id)
  {
    hide Run, Reachable, LogOk;
    var now, maxSize, events := Origin(s);
    var init := Init(now, maxSize);
    assert Counted(init) by { InitCounted(now, maxSize); }
    RunCounted(init, events);
    forall x | x in s.arrived
      ensures x in s.quarantined <==> FailedOut(s.failures, x.id)
    {
      if FailedOut(s.failures, x.id) {
        var i :| IsEntry(s.failures, i, x.id, MAX_DECRYPT_ATTEMPTS);
        assert HasArrived(s.quarantined, s.failures[i].id);
        var y :| y in s.quarantined && y.id == s.failures[i].id;
        assert y in s.arrived;
      }
    }
  }

  lemma InitCounted(now: int, maxSize: U64)
    ensures Counted(Init(now, maxSize))
  {}

  /** Each failed attempt doubles the wait, from two seconds up to 2^17. */
  lemma BackoffDoubles(attempts: nat)
    requires attempts >= 1
    ensures BackoffDelay(1) == 2
    ensures BackoffDelay(attempts + 1) == if attempts <= 16 then 2 * BackoffDelay(attempts) else BackoffDelay(attempts)
    ensures attempts > 16 ==> BackoffDelay(attempts) == 0x2_0000
  {
    if attempts > 16 { SixteenDoublings(); }
  }

  lemma SixteenDoublings()
    ensures Pow2(16) == 0x1_0000
  {
    assert Pow2(4) == 16;
    assert Pow2(8) == 16 * Pow2(4);
    assert Pow2(12) == 16 * Pow2(8);
    assert Pow2(16) == 16 * Pow2(12);
  }

  /******* The retry budget *******/

  function Pairs(log: seq<Failure>): set<(Id, nat)> {
    set i | 0 <= i < |log| :: (log[i].id, log[i].number)
  }

  lemma {:induction false} PairsCount(log: seq<Failure>)
    requires forall i, j | 0 <= i < j < |log| && log[i].id == log[j].id :: log[i].number < log[j].number
    ensures |Pairs(log)| == |log|
  {
    if |log| == 0 {
      assert Pairs(log) == {};
    } else {
      var front, last := log[..|log| - 1], log[|log| - 1];
      PairsCount(front);
      assert (last.id, last.number) !in Pairs(front);
      assert Pairs(log) == Pairs(front) + {(last.id, last.number)};
    }
  }

  /** Five numbered attempts for each id. */
  function Slots(ids: set<Id>): set<(Id, nat)> {
    set id, n: nat | id in ids && 1 <= n <= MAX_DECRYPT_ATTEMPTS :: (id, n)
  }

  lemma {:induction false} SlotsCount(ids: set<Id>)
    ensures |Slots(ids)| == MAX_DECRYPT_ATTEMPTS * |ids|
    decreases |ids|
  {
    if |ids| == 0 {
      assert Slots(ids) == {};
    } else {
      var id :| id in ids;
      var rest := ids - {id};
      SlotsCount(rest);
      OwnSlots(id);
      assert Slots(ids) == Slots(rest) + Slots({id}) && Slots(rest) !! Slots({id});
    }
  }

  lemma OwnSlots(id: Id)
    ensures |Slots({id})| == MAX_DECRYPT_ATTEMPTS
  {
    assert Slots({id}) == {(id, 1), (id, 2), (id, 3), (id, 4), (id, 5)};
  }

  function IdsOf(arrived: multiset<Share>): set<Id> {
    set x | x in arrived :: x.id
  }

  lemma {:induction false} IdsCount(arrived: multiset<Share>)
    ensures |IdsOf(arrived)| <= |arrived|
    decreases |arrived|
  {
    if |arrived| == 0 {
      assert IdsOf(arrived) == {};
    } else {
      var x :| x in arrived;
      var rest := arrived - multiset{x};
      IdsCount(rest);
      assert arrived == rest + multiset{x};
      Fewer(IdsOf(arrived), IdsOf(rest) + {x.id});
    }
  }

  lemma {:induction false} Fewer<T>(a: set<T>, b: set<T>)
    requires a <= b
    ensures |a| <= |b|
    decreases |a|
  {
    if |a| > 0 {
      var x :| x in a;
      Fewer(a - {x}, b - {x});
    }
  }

  /** All failed decryptions of a run together are at most five per arrived share. */
  lemma RetryBudget(s: State)
    requires Reachable(s) && UniqueIds(s.arrived)
    ensures |s.failures| <= 5 * |s.arrived|
  {
    hide Run, Reachable;
    var now, maxSize, events := Origin(s);
    InitCounted(now, maxSize);
    RunCounted(Init(now, maxSize), events);
    PairsCount(s.failures);
    SlotsCount(IdsOf(s.arrived));
    IdsCount(s.arrived);
    forall i | 0 <= i < |s.failures| ensures s.failures[i].id in IdsOf(s.arrived) {
      var x :| x in s.arrived && x.id == s.failures[i].id;
    }
    Fewer(Pairs(s.failures), Slots(IdsOf(s.arrived)));
  }
}
