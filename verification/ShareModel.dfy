/**
 The queue of encrypted shares as a state machine: threads that deliver shares,
 threads that start decryption passes, and the passes themselves. Each locked
 section is one step; times are seconds.
 */
module ShareModel {
  import opened Common

  const MAX_DECRYPT_ATTEMPTS: nat := 5
  const DECRYPT_RETRY_BASE_DELAY: nat := 2
  const KEY_RETRY_DELAY: nat := 5

  type Id = string

  datatype Share = Share(id: Id, size: U64)

  datatype Retry = Retry(attempts: nat, nextRetryAt: int)

  /** One failed decryption: the `number`-th of its share, in a pass that began at `began`. */
  datatype Failure = Failure(id: Id, number: nat, began: int, at: int)

  datatype Pass =
    | Starting
    | Clocked(began: int, maxSize: U64)
    | AwaitingKey(began: int, maxSize: U64, batch: seq<Share>)
    | Working(began: int, maxSize: U64, todo: seq<Share>, retryQueue: seq<Share>, decryptedIds: seq<Id>)
    | Acking(ids: seq<Id>)

  datatype State = State(
    now: int,
    maxSize: U64,
    pending: seq<Share>,
    retry: map<Id, Retry>,
    pendingAck: set<Id>,
    decrypted: seq<Share>,
    sawDue: set<nat>,
    inFlight: bool,
    passes: seq<Pass>,
    arrived: multiset<Share>,
    quarantined: multiset<Share>,
    oversize: multiset<Share>,
    failures: seq<Failure>)

  datatype Event =
    | Tick(elapsed: nat)
    | SetMaxSize(maxSize: U64)
    | Arrive(share: Share)
    | Check(thread: nat)
    | Start(thread: nat)
    | Clock(pass: nat)
    | Partition(pass: nat)
    | Key(pass: nat, loaded: bool)
    | Decode(pass: nat, ok: bool)
    | Requeue(pass: nat)
    | Ack(pass: nat, ok: bool)
    | End(pass: nat)

  function Init(now: int, maxSize: U64): State {
    State(now, maxSize, [], map[], {}, [], {}, false, [], multiset{}, multiset{}, multiset{}, [])
  }

  function Pow2(n: nat): nat {
    if n == 0 then 1 else 2 * Pow2(n - 1)
  }

  /** Exponential backoff after the given number of failed attempts, capped at 2^16. */
  function BackoffDelay(attempts: nat): nat {
    var shift := if attempts == 0 then 0 else attempts - 1;
    DECRYPT_RETRY_BASE_DELAY * Pow2(if shift < 16 then shift else 16)
  }

  function SaturatingDouble(size: U64): U64 {
    if 2 * size <= U64_MAX then 2 * size else U64_MAX
  }

  predicate Oversize(share: Share, maxSize: U64) {
    maxSize != U64_MAX && share.size > SaturatingDouble(maxSize)
  }

  predicate IsDue(retry: map<Id, Retry>, now: int, share: Share) {
    share.id in retry ==> retry[share.id].nextRetryAt <= now
  }

  predicate AnyDue(pending: seq<Share>, retry: map<Id, Retry>, now: int) {
    exists i | 0 <= i < |pending| :: IsDue(retry, now, pending[i])
  }

  /** The shares that are due, or that are not, in queue order. */
  function Split(pending: seq<Share>, retry: map<Id, Retry>, now: int, due: bool): seq<Share> {
    if |pending| == 0 then []
    else
      var front, share := Split(pending[..|pending| - 1], retry, now, due), pending[|pending| - 1];
      if IsDue(retry, now, share) == due then front + [share] else front
  }

  function AttemptsOf(retry: map<Id, Retry>, id: Id): nat {
    if id in retry then retry[id].attempts else 0
  }

  /** Bookkeeping after one more failed attempt; exhausted shares are forgotten. */
  function AfterFailure(retry: map<Id, Retry>, id: Id, now: int): map<Id, Retry> {
    var attempts := AttemptsOf(retry, id) + 1;
    if attempts >= MAX_DECRYPT_ATTEMPTS then retry - {id}
    else retry[id := Retry(attempts, now + BackoffDelay(attempts))]
  }

  function IdsIn(batch: seq<Share>): set<Id> {
    set i | 0 <= i < |batch| :: batch[i].id
  }

  /** Every share of the batch waits for the key, without an attempt being counted. */
  function AfterKeyFailure(retry: map<Id, Retry>, batch: seq<Share>, at: int): map<Id, Retry> {
    map id | id in retry.Keys + IdsIn(batch) ::
      if id in IdsIn(batch) then Retry(AttemptsOf(retry, id), at) else retry[id]
  }

  function Keep(ids: seq<Id>, kept: set<Id>): seq<Id> {
    if |ids| == 0 then []
    else Keep(ids[..|ids| - 1], kept) + if ids[|ids| - 1] in kept then [ids[|ids| - 1]] else []
  }

  function StepStart(s: State, t: nat): Option<State> {
    if t !in s.sawDue then None
    else if s.inFlight then Some(s.(sawDue := s.sawDue - {t}))
    else Some(s.(sawDue := s.sawDue - {t}, inFlight := true, passes := s.passes + [Starting]))
  }

  function StepClock(s: State, p: nat): Option<State> {
    if p < |s.passes| && s.passes[p].Starting?
    then Some(s.(passes := s.passes[p := Clocked(s.now, s.maxSize)]))
    else None
  }

  /** Takes the due shares; the others stay queued. */
  function StepPartition(s: State, p: nat): Option<State> {
    if p < |s.passes| && s.passes[p].Clocked? then
      var began := s.passes[p].began;
      var due := Split(s.pending, s.retry, began, true);
      Some(s.(pending := Split(s.pending, s.retry, began, false),
              passes := s.passes[p := if due == [] then Acking([]) else AwaitingKey(began, s.passes[p].maxSize, due)]))
    else None
  }

  function StepKey(s: State, p: nat, loaded: bool): Option<State> {
    if p < |s.passes| && s.passes[p].AwaitingKey? then
      var pass := s.passes[p];
      Some(if loaded
           then s.(passes := s.passes[p := Working(pass.began, pass.maxSize, pass.batch, [], [])])
           else s.(retry := AfterKeyFailure(s.retry, pass.batch, s.now + KEY_RETRY_DELAY),
                   passes := s.passes[p := Working(pass.began, pass.maxSize, [], pass.batch, [])]))
    else None
  }

  /** One share: dropped as oversize, decrypted, requeued, or quarantined. */
  function StepDecode(s: State, p: nat, ok: bool): Option<State> {
    if p < |s.passes| && s.passes[p].Working? && s.passes[p].todo != [] then
      var pass := s.passes[p];
      var share, rest := pass.todo[0], pass.(todo := pass.todo[1..]);
      Some(if Oversize(share, pass.maxSize) then
             s.(oversize := s.oversize + multiset{share}, passes := s.passes[p := rest])
           else if ok then
             s.(decrypted := s.decrypted + [share], retry := s.retry - {share.id},
                passes := s.passes[p := rest.(decryptedIds := pass.decryptedIds + [share.id])])
           else
             var number := AttemptsOf(s.retry, share.id) + 1;
             var noted := s.(retry := AfterFailure(s.retry, share.id, s.now),
                             failures := s.failures + [Failure(share.id, number, pass.began, s.now)]);
             if number >= MAX_DECRYPT_ATTEMPTS
             then noted.(quarantined := s.quarantined + multiset{share}, passes := s.passes[p := rest])
             else noted.(passes := s.passes[p := rest.(retryQueue := pass.retryQueue + [share])]))
    else None
  }

  /** Failed shares go back in front of whatever is queued by now. */
  function StepRequeue(s: State, p: nat): Option<State> {
    if p < |s.passes| && s.passes[p].Working? && s.passes[p].todo == [] then
      Some(s.(pending := s.passes[p].retryQueue + s.pending,
              passes := s.passes[p := Acking(Keep(s.passes[p].decryptedIds, s.pendingAck))]))
    else None
  }

  function StepAck(s: State, p: nat, ok: bool): Option<State> {
    if p < |s.passes| && s.passes[p].Acking? && s.passes[p].ids != [] then
      Some(s.(pendingAck := if ok then s.pendingAck - {s.passes[p].ids[0]} else s.pendingAck,
              passes := s.passes[p := Acking(s.passes[p].ids[1..])]))
    else None
  }

  /** The pass thread ends and clears the in-flight flag. */
  function StepEnd(s: State, p: nat): Option<State> {
    if p < |s.passes| && s.passes[p] == Acking([])
    then Some(s.(inFlight := false, passes := s.passes[..p] + s.passes[p + 1..]))
    else None
  }

  function Step(s: State, e: Event): Option<State> {
    match e
    case Tick(elapsed) => Some(s.(now := s.now + elapsed))
    case SetMaxSize(maxSize) => Some(s.(maxSize := maxSize))
    case Arrive(share) =>
      Some(s.(pending := s.pending + [share], pendingAck := s.pendingAck + {share.id},
              arrived := s.arrived + multiset{share}))
    case Check(t) => if AnyDue(s.pending, s.retry, s.now) then Some(s.(sawDue := s.sawDue + {t})) else Some(s)
    case Start(t) => StepStart(s, t)
    case Clock(p) => StepClock(s, p)
    case Partition(p) => StepPartition(s, p)
    case Key(p, loaded) => StepKey(s, p, loaded)
    case Decode(p, ok) => StepDecode(s, p, ok)
    case Requeue(p) => StepRequeue(s, p)
    case Ack(p, ok) => StepAck(s, p, ok)
    case End(p) => StepEnd(s, p)
  }

  function Run(s: State, events: seq<Event>): Option<State> {
    if |events| == 0 then Some(s)
    else
      var front := Run(s, events[..|events| - 1]);
      if front.None? then None else Step(front.value, events[|events| - 1])
  }

  ghost predicate Reachable(s: State) {
    exists now: int, maxSize: U64, events: seq<Event> :: Run(Init(now, maxSize), events) == Some(s)
  }

  lemma Origin(s: State) returns (now: int, maxSize: U64, events: seq<Event>)
    requires Reachable(s)
    ensures Run(Init(now, maxSize), events) == Some(s)
  {
    now, maxSize, events :| Run(Init(now, maxSize), events) == Some(s);
  }

  lemma RunSnoc(m: State, events: seq<Event>, m': State, e: Event)
    requires Run(m, events) == Some(m')
    ensures Run(m, events + [e]) == Step(m', e)
  {
    assert (events + [e])[..|events|] == events;
  }

  lemma {:induction false} RunJoin(m: State, first: seq<Event>, m': State, second: seq<Event>)
    requires Run(m, first) == Some(m')
    ensures Run(m, first + second) == Run(m', second)
  {
    hide Step;
    if |second| == 0 {
      assert first + second == first;
    } else {
      var front := second[..|second| - 1];
      RunJoin(m, first, m', front);
      assert (first + second)[..|first + second| - 1] == first + front;
    }
  }
}
