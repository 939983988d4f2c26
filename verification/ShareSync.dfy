/** The shared state of one profile and the methods that run a decryption pass over it. */
module ShareSync {
  import opened Common
  import opened ShareModel
  import opened ShareFacts

  class SyncState {
    var maxFileSizeBytes: U64
    var pendingSharedFiles: seq<Share>
    var shareRetryState: map<Id, Retry>
    var pendingAckShareIds: set<Id>
    var pendingDecryptedFiles: seq<Share>
    var decryptInFlight: bool

    constructor (maxFileSizeBytes: U64, now: int)
      ensures Matches(Init(now, maxFileSizeBytes))
    {
      this.maxFileSizeBytes := maxFileSizeBytes;
      pendingSharedFiles, shareRetryState, pendingAckShareIds, pendingDecryptedFiles := [], map[], {}, [];
      decryptInFlight := false;
    }

    /** These fields are the ones of model state `m`. */
    ghost predicate Matches(m: State)
      reads this
    {
      && m.maxSize == maxFileSizeBytes && m.pending == pendingSharedFiles && m.retry == shareRetryState
      && m.pendingAck == pendingAckShareIds && m.decrypted == pendingDecryptedFiles && m.inFlight == decryptInFlight
    }

    /** Whether some queued share is outside its backoff window. */
    method AnyShareDue(now: int) returns (due: bool)
      ensures due == AnyDue(pendingSharedFiles, shareRetryState, now)
    {
      for i := 0 to |pendingSharedFiles|
        invariant forall j | 0 <= j < i :: !IsDue(shareRetryState, now, pendingSharedFiles[j])
      {
        if IsDue(shareRetryState, now, pendingSharedFiles[i]) { return true; }
      }
      return false;
    }

    /** Claims the right to run a pass: only when a share is due and no pass holds it. */
    method StartDecryptionIfIdle(thread: nat, now: int, ghost m: State) returns (started: bool)
      requires Matches(m) && m.now == now && thread !in m.sawDue
      modifies `decryptInFlight
      ensures started <==> AnyDue(pendingSharedFiles, shareRetryState, now) && !old(decryptInFlight)
      ensures AnyDue(pendingSharedFiles, shareRetryState, now) ==>
                var seen := Step(m, Check(thread)).value;
                && Step(seen, Start(thread)).Some? && Matches(Step(seen, Start(thread)).value)
                && |Step(seen, Start(thread)).value.passes| == |m.passes| + if started then 1 else 0
    {
      var due := AnyShareDue(now);
      if !due { return false; }
      started := !decryptInFlight;
      decryptInFlight := true;
    }

    /** Takes the due shares out of the queue. */
    method TakeDue(now: int) returns (due: seq<Share>)
      modifies `pendingSharedFiles
      ensures due == Split(old(pendingSharedFiles), shareRetryState, now, true)
      ensures pendingSharedFiles == Split(old(pendingSharedFiles), shareRetryState, now, false)
    {
      var queue := pendingSharedFiles;
      var deferred: seq<Share> := [];
      due := [];
      for i := 0 to |queue|
        invariant due == Split(queue[..i], shareRetryState, now, true)
        invariant deferred == Split(queue[..i], shareRetryState, now, false)
      {
        assert queue[..i + 1][..i] == queue[..i];
        if IsDue(shareRetryState, now, queue[i]) {
          due := due + [queue[i]];
        } else {
          deferred := deferred + [queue[i]];
        }
      }
      assert queue[..|queue|] == queue;
      pendingSharedFiles := deferred;
    }

    /** Pushes out the next attempt of a whole batch, counting none. */
    method DeferBatchForKeyRetry(batch: seq<Share>, now: int)
      modifies `shareRetryState
      ensures shareRetryState == AfterKeyFailure(old(shareRetryState), batch, now + KEY_RETRY_DELAY)
    {
      var at := now + KEY_RETRY_DELAY;
      ghost var before := shareRetryState;
      assert AfterKeyFailure(before, [], at) == before;
      assert batch[..0] == [];
      for i := 0 to |batch|
        invariant shareRetryState == AfterKeyFailure(before, batch[..i], at)
      {
        var id := batch[i].id;
        DeferStep(before, batch, at, i);
        shareRetryState := shareRetryState[id := Retry(AttemptsOf(shareRetryState, id), at)];
      }
      assert batch[..|batch|] == batch;
    }

    /** Records a failed attempt; tells how many there have been. */
    method NoteFailure(id: Id, now: int) returns (attempts: nat)
      modifies `shareRetryState
      ensures attempts == AttemptsOf(old(shareRetryState), id) + 1
      ensures shareRetryState == AfterFailure(old(shareRetryState), id, now)
    {
      var entry := if id in shareRetryState then shareRetryState[id] else Retry(0, now);
      attempts := entry.attempts + 1;
      shareRetryState := shareRetryState[id := Retry(attempts, now + BackoffDelay(attempts))];
      if attempts >= MAX_DECRYPT_ATTEMPTS {
        shareRetryState := shareRetryState - {id};
      }
    }

    /** Settles one taken share. `keep` tells whether it goes back into the queue. */
    method DecodeShare(share: Share, maxSize: U64, decoded: bool, now: int, ghost m: State)
      returns (keep: bool, ok: bool)
      requires Matches(m) && m.now == now && |m.passes| == 1 && m.passes[0].Working?
      requires m.passes[0].todo != [] && m.passes[0].todo[0] == share && m.passes[0].maxSize == maxSize
      modifies this
      ensures Step(m, Decode(0, decoded)).Some? && Matches(Step(m, Decode(0, decoded)).value)
      ensures var pass, pass' := m.passes[0], Step(m, Decode(0, decoded)).value.passes[0];
              && pass'.Working?
              && pass'.retryQueue == pass.retryQueue + (if keep then [share] else [])
              && pass'.decryptedIds == pass.decryptedIds + (if ok then [share.id] else [])
              && ok == (decoded && !Oversize(share, maxSize))
      ensures pendingDecryptedFiles == old(pendingDecryptedFiles) + if ok then [share] else []
    {
      keep, ok := false, false;
      if Oversize(share, maxSize) { return; }
      if decoded {
        pendingDecryptedFiles := pendingDecryptedFiles + [share];
        shareRetryState := shareRetryState - {share.id};
        ok := true;
      } else {
        var attempts := NoteFailure(share.id, now);
        keep := attempts < MAX_DECRYPT_ATTEMPTS;
      }
    }

    /** Decodes the taken shares one after another; `results` are the outcomes of decryption. */
    method DecodeBatch(batch: seq<Share>, maxSize: U64, results: seq<bool>, now: int, ghost m: State)
      returns (retryQueue: seq<Share>, decryptedIds: seq<Id>, ghost m': State)
      requires |results| == |batch| && Matches(m) && m.now == now
      requires |m.passes| == 1 && m.passes[0].Working? && m.passes[0].todo == batch && m.passes[0].maxSize == maxSize
      requires m.passes[0].retryQueue == [] && m.passes[0].decryptedIds == []
      modifies this
      ensures Matches(m') && Run(m, DecodeEvents(results)) == Some(m')
      ensures |m'.passes| == 1 && m'.passes[0] == Working(m.passes[0].began, maxSize, [], retryQueue, decryptedIds)
      ensures m'.now == now && decryptedIds == DecodedIds(batch, maxSize, results)
      ensures Delivered(old(pendingDecryptedFiles), pendingDecryptedFiles, decryptedIds)
    {
      retryQueue, decryptedIds, m' := [], [], m;
      NothingDecoded(m, batch, maxSize, results);
      DeliveredNone(pendingDecryptedFiles);
      hide Step, Run, DecodedIds, DecodeEvents, Oversize, Delivered;
      for i := 0 to |batch|
        invariant Matches(m') && Run(m, DecodeEvents(results[..i])) == Some(m') && m'.now == now
        invariant |m'.passes| == 1
        invariant m'.passes[0] == Working(m.passes[0].began, maxSize, batch[i..], retryQueue, decryptedIds)
        invariant decryptedIds == DecodedIds(batch[..i], maxSize, results[..i])
        invariant Delivered(old(pendingDecryptedFiles), pendingDecryptedFiles, decryptedIds)
      {
        DecodedStep(batch, maxSize, results, i);
        ghost var pendingBefore := pendingDecryptedFiles;
        var keep, ok := DecodeShare(batch[i], maxSize, results[i], now, m');
        DeliveredMore(old(pendingDecryptedFiles), pendingBefore, decryptedIds, batch[i]);
        if keep { retryQueue := retryQueue + [batch[i]]; }
        if ok { decryptedIds := decryptedIds + [batch[i].id]; }
        DecodeEventsStep(m, results, i);
        DecodeFacts(m', results[i]);
        assert batch[i..][1..] == batch[i + 1..];
        m' := Step(m', Decode(0, results[i])).value;
      }
      assert results[..|batch|] == results && batch[..|batch|] == batch;
    }

    /** The decrypted ids that still await their acknowledgement, in order. */
    method IdsToAck(decryptedIds: seq<Id>) returns (ids: seq<Id>)
      ensures ids == Keep(decryptedIds, pendingAckShareIds)
    {
      ids := [];
      for i := 0 to |decryptedIds|
        invariant ids == Keep(decryptedIds[..i], pendingAckShareIds)
      {
        assert decryptedIds[..i + 1][..i] == decryptedIds[..i];
        if decryptedIds[i] in pendingAckShareIds { ids := ids + [decryptedIds[i]]; }
      }
      assert decryptedIds[..|decryptedIds|] == decryptedIds;
    }

    /**
     Consumes decrypted shares server-side, `results` saying which calls succeed: exactly
     the ids of the calls that do leave the set, whichever of them fail in between.
     */
    method AcknowledgeDownloadedShares(decryptedIds: seq<Id>, results: seq<bool>, ghost m: State)
      requires |results| == |Keep(decryptedIds, pendingAckShareIds)|
      requires Matches(m) && m.passes == [Acking(Keep(decryptedIds, pendingAckShareIds))]
      modifies `pendingAckShareIds
      ensures var ids := Keep(decryptedIds, old(pendingAckShareIds));
              && pendingAckShareIds == old(pendingAckShareIds) - Acknowledged(ids, results, |ids|)
              && (forall id :: id in pendingAckShareIds <==>
                    && id in old(pendingAckShareIds)
                    && !exists i :: 0 <= i < |ids| && results[i] && ids[i] == id)
      ensures Run(m, AckEvents(results)) == Some(m.(pendingAck := pendingAckShareIds, passes := [Acking([])]))
    {
      hide Keep, Step, Run;
      var ids := IdsToAck(decryptedIds);
      ghost var before := pendingAckShareIds;
      AckNone(m, ids, results);
      for i := 0 to |ids|
        invariant pendingAckShareIds == before - Acknowledged(ids, results, i)
        invariant Run(m, AckEvents(results[..i]))
                  == Some(m.(pendingAck := pendingAckShareIds, passes := [Acking(ids[i..])]))
      {
        AckStep(m, before, ids, results, i);
        if results[i] {
          pendingAckShareIds := pendingAckShareIds - {ids[i]};
        }
      }
      assert results[..|ids|] == results && ids[|ids|..] == [];
    }

    /** One undisturbed pass up to its requeue: the run of the model its outcomes call for. */
    method RunDecryptionPass(keyLoaded: bool, results: seq<bool>, now: int, ghost m: State)
      returns (decryptedIds: seq<Id>, retryQueue: seq<Share>, ghost m': State)
      requires Matches(m) && m.now == now && m.passes == [Starting]
      requires |results| == |Split(pendingSharedFiles, shareRetryState, now, true)|
      modifies this
      ensures var batch := Split(old(pendingSharedFiles), old(shareRetryState), now, true);
              && Run(m, PassEvents(batch, keyLoaded, results)) == Some(m')
              && decryptedIds == (if keyLoaded then DecodedIds(batch, old(maxFileSizeBytes), results) else [])
              && (!keyLoaded ==> retryQueue == batch)
      ensures Delivered(old(pendingDecryptedFiles), pendingDecryptedFiles, decryptedIds)
      ensures Matches(m') && m'.passes == [Acking(Keep(decryptedIds, pendingAckShareIds))]
      ensures pendingSharedFiles == retryQueue + Split(old(pendingSharedFiles), old(shareRetryState), now, false)
    {
      hide Split, AfterFailure, AfterKeyFailure, Oversize, Keep, Run, Step, DecodedIds;
      var maxSize := maxFileSizeBytes;
      var batch := TakeDue(now);
      m' := Begun(m);
      decryptedIds, retryQueue := [], [];
      if batch == [] {
        NoneDecoded(maxSize, results, pendingAckShareIds);
        assert pendingSharedFiles == retryQueue + pendingSharedFiles;
        return;
      }
      ghost var events := [Clock(0), Partition(0)];
      KeyRead(m', keyLoaded);
      RunSnoc(m, events, m', Key(0, keyLoaded));
      events, m' := events + [Key(0, keyLoaded)], Step(m', Key(0, keyLoaded)).value;
      if keyLoaded {
        ghost var working := m';
        retryQueue, decryptedIds, m' := DecodeBatch(batch, maxSize, results, now, m');
        RunJoin(m, events, working, DecodeEvents(results));
        DecodeKeepsPending(working, results);
        events := events + DecodeEvents(results);
      } else {
        DeferBatchForKeyRetry(batch, now);
        retryQueue := batch;
      }
      Requeued(m');
      RunSnoc(m, events, m', Requeue(0));
      m' := Step(m', Requeue(0)).value;
      pendingSharedFiles := retryQueue + pendingSharedFiles;
      PassEventsAre(batch, keyLoaded, results);
    }
  }

  /** The decrypted shares on top of those there before are the ones with these ids, in order. */
  predicate Delivered(before: seq<Share>, after: seq<Share>, ids: seq<Id>) {
    && before <= after && |after| == |before| + |ids|
    && forall k | 0 <= k < |ids| :: after[|before| + k].id == ids[k]
  }

  lemma NothingDecoded(m: State, batch: seq<Share>, maxSize: U64, results: seq<bool>)
    requires |results| == |batch|
    ensures results[..0] == [] && batch[..0] == [] && batch[0..] == batch
    ensures Run(m, DecodeEvents(results[..0])) == Some(m) && DecodedIds(batch[..0], maxSize, results[..0]) == []
  {}

  lemma DeliveredNone(before: seq<Share>)
    ensures Delivered(before, before, [])
  {}

  lemma DeliveredMore(before: seq<Share>, after: seq<Share>, ids: seq<Id>, share: Share)
    requires Delivered(before, after, ids)
    ensures Delivered(before, after + [share], ids + [share.id]) && Delivered(before, after + [], ids + [])
  {
    assert after + [] == after && ids + [] == ids;
  }

  function IdsOf(batch: seq<Share>): seq<Id> {
    seq(|batch|, i requires 0 <= i < |batch| => batch[i].id)
  }

  /** The decrypted ids are those of the shares that decrypt and are not too big, in order. */
  lemma {:induction false} DecodedPicks(batch: seq<Share>, maxSize: U64, results: seq<bool>)
    returns (keep: seq<bool>, ps: seq<nat>)
    requires |results| == |batch|
    ensures Picks(DecodedIds(batch, maxSize, results), IdsOf(batch), keep, ps)
    ensures |keep| == |batch| && forall p | 0 <= p < |batch| :: keep[p] == (results[p] && !TooBig(batch[p], maxSize))
  {
    hide Picks;
    if |batch| == 0 {
      PicksNone<Id>();
      keep, ps := [], [];
      assert IdsOf(batch) == [];
    } else {
      var n := |batch| - 1;
      keep, ps := DecodedPicks(batch[..n], maxSize, results[..n]);
      var ids, kept := DecodedIds(batch[..n], maxSize, results[..n]), results[n] && !TooBig(batch[n], maxSize);
      assert ids + [] == ids && IdsOf(batch) == IdsOf(batch[..n]) + [batch[n].id];
      PicksMore(ids, IdsOf(batch[..n]), keep, ps, batch[n].id, kept);
      keep, ps := keep + [kept], if kept then ps + [n] else ps;
    }
  }

  /** The ids decoded from a batch, in order: those neither oversize nor failing. */
  function DecodedIds(batch: seq<Share>, maxSize: U64, results: seq<bool>): seq<Id>
    requires |results| == |batch|
  {
    if |batch| == 0 then []
    else
      var n := |batch| - 1;
      DecodedIds(batch[..n], maxSize, results[..n])
      + if results[n] && !Oversize(batch[n], maxSize) then [batch[n].id] else []
  }

  lemma DecodedStep(batch: seq<Share>, maxSize: U64, results: seq<bool>, i: nat)
    requires |results| == |batch| && i < |batch|
    ensures DecodedIds(batch[..i + 1], maxSize, results[..i + 1])
            == DecodedIds(batch[..i], maxSize, results[..i])
               + if results[i] && !Oversize(batch[i], maxSize) then [batch[i].id] else []
  {
    hide Oversize;
    assert batch[..i + 1][..i] == batch[..i] && results[..i + 1][..i] == results[..i];
  }

  lemma NoneDecoded(maxSize: U64, results: seq<bool>, pendingAck: set<Id>)
    requires results == []
    ensures DecodedIds([], maxSize, results) == [] && Keep([], pendingAck) == []
  {}

  /** The steps of a pass, as the taken batch, the keychain and the decryption decide. */
  function PassEvents(batch: seq<Share>, keyLoaded: bool, results: seq<bool>): seq<Event> {
    if batch == [] then [Clock(0), Partition(0)]
    else
      [Clock(0), Partition(0), Key(0, keyLoaded)] + (if keyLoaded then DecodeEvents(results) else []) + [Requeue(0)]
  }

  lemma PassEventsAre(batch: seq<Share>, keyLoaded: bool, results: seq<bool>)
    requires batch != []
    ensures PassEvents(batch, keyLoaded, results)
            == if keyLoaded then [Clock(0), Partition(0)] + [Key(0, keyLoaded)] + DecodeEvents(results) + [Requeue(0)]
               else [Clock(0), Partition(0)] + [Key(0, keyLoaded)] + [Requeue(0)]
  {
    hide DecodeEvents;
    assert [Clock(0), Partition(0)] + [Key(0, keyLoaded)] == [Clock(0), Partition(0), Key(0, keyLoaded)];
    assert [Clock(0), Partition(0), Key(0, keyLoaded)] + [] == [Clock(0), Partition(0), Key(0, keyLoaded)];
  }

  /** The first `n` ids whose acknowledgement succeeded. */
  function Acknowledged(ids: seq<Id>, results: seq<bool>, n: nat): set<Id>
    requires n <= |ids| == |results|
  {
    set i | 0 <= i < n && results[i] :: ids[i]
  }

  function AckEvents(results: seq<bool>): seq<Event> {
    seq(|results|, i requires 0 <= i < |results| => Ack(0, results[i]))
  }

  lemma AckNone(m: State, ids: seq<Id>, results: seq<bool>)
    requires |results| == |ids| && m.passes == [Acking(ids)]
    ensures Acknowledged(ids, results, 0) == {} && m.pendingAck - {} == m.pendingAck && ids[0..] == ids
    ensures AckEvents(results[..0]) == [] && Run(m, []) == Some(m)
  {}

  lemma AcknowledgedStep(before: set<Id>, ids: seq<Id>, results: seq<bool>, i: nat)
    requires i < |ids| == |results|
    ensures before - Acknowledged(ids, results, i + 1)
            == before - Acknowledged(ids, results, i) - if results[i] then {ids[i]} else {}
  {
    var sofar, more := Acknowledged(ids, results, i), Acknowledged(ids, results, i + 1);
    forall id | id in sofar ensures id in more {
      var k :| 0 <= k < i && results[k] && ids[k] == id;
      assert k < i + 1;
    }
    assert more == sofar + if results[i] then {ids[i]} else {};
  }

  lemma AckOne(m: State, left: set<Id>, todo: seq<Id>, ok: bool)
    requires todo != []
    ensures Step(m.(pendingAck := left, passes := [Acking(todo)]), Ack(0, ok))
            == Some(m.(pendingAck := left - (if ok then {todo[0]} else {}), passes := [Acking(todo[1..])]))
  {
    assert [Acking(todo)][0 := Acking(todo[1..])] == [Acking(todo[1..])];
    assert left - {} == left;
  }

  lemma AckStep(m: State, before: set<Id>, ids: seq<Id>, results: seq<bool>, i: nat)
    requires i < |ids| == |results|
    requires var left := before - Acknowledged(ids, results, i);
             Run(m, AckEvents(results[..i])) == Some(m.(pendingAck := left, passes := [Acking(ids[i..])]))
    ensures var left := before - Acknowledged(ids, results, i + 1);
            && left == before - Acknowledged(ids, results, i) - (if results[i] then {ids[i]} else {})
            && Run(m, AckEvents(results[..i + 1])) == Some(m.(pendingAck := left, passes := [Acking(ids[i + 1..])]))
  {
    hide Step, Run, Acknowledged;
    var left := before - Acknowledged(ids, results, i);
    AcknowledgedStep(before, ids, results, i);
    assert AckEvents(results[..i + 1]) == AckEvents(results[..i]) + [Ack(0, results[i])];
    RunSnoc(m, AckEvents(results[..i]), m.(pendingAck := left, passes := [Acking(ids[i..])]), Ack(0, results[i]));
    AckOne(m, left, ids[i..], results[i]);
    assert ids[i..][1..] == ids[i + 1..];
  }

  lemma ClockRead(m: State)
    requires m.passes == [Starting]
    ensures Step(m, Clock(0)) == Some(m.(passes := [Clocked(m.now, m.maxSize)]))
  {
    assert m.passes[0 := Clocked(m.now, m.maxSize)] == [Clocked(m.now, m.maxSize)];
  }

  lemma DueTaken(m: State, began: int, maxSize: U64)
    requires m.passes == [Clocked(began, maxSize)]
    ensures var due := Split(m.pending, m.retry, began, true);
            Step(m, Partition(0)) == Some(
              m.(pending := Split(m.pending, m.retry, began, false),
                 passes := [if due == [] then Acking([]) else AwaitingKey(began, maxSize, due)]))
  {
    hide Split;
    var due := Split(m.pending, m.retry, began, true);
    var pass := if due == [] then Acking([]) else AwaitingKey(began, maxSize, due);
    assert m.passes[0 := pass] == [pass];
  }

  /** A pass reads the clock and takes the due shares. */
  lemma Begun(m: State) returns (m': State)
    requires m.passes == [Starting]
    ensures Run(m, [Clock(0), Partition(0)]) == Some(m')
    ensures var due := Split(m.pending, m.retry, m.now, true);
            m' == m.(pending := Split(m.pending, m.retry, m.now, false),
                     passes := [if due == [] then Acking([]) else AwaitingKey(m.now, m.maxSize, due)])
  {
    hide Split, Step;
    ClockRead(m);
    var clocked := m.(passes := [Clocked(m.now, m.maxSize)]);
    DueTaken(clocked, m.now, m.maxSize);
    assert Run(m, []) == Some(m);
    assert [] + [Clock(0)] == [Clock(0)] && [Clock(0)] + [Partition(0)] == [Clock(0), Partition(0)];
    RunSnoc(m, [], m, Clock(0));
    RunSnoc(m, [Clock(0)], clocked, Partition(0));
    m' := Step(clocked, Partition(0)).value;
  }

  lemma KeyRead(m: State, loaded: bool)
    requires |m.passes| == 1 && m.passes[0].AwaitingKey?
    ensures var pass := m.passes[0];
            Step(m, Key(0, loaded)) == Some(
              if loaded then m.(passes := [Working(pass.began, pass.maxSize, pass.batch, [], [])])
              else m.(retry := AfterKeyFailure(m.retry, pass.batch, m.now + KEY_RETRY_DELAY),
                      passes := [Working(pass.began, pass.maxSize, [], pass.batch, [])]))
  {
    hide AfterKeyFailure;
    var pass := m.passes[0];
    var decoding := Working(pass.began, pass.maxSize, pass.batch, [], []);
    var deferring := Working(pass.began, pass.maxSize, [], pass.batch, []);
    assert m.passes[0 := decoding] == [decoding] && m.passes[0 := deferring] == [deferring];
  }

  lemma Requeued(m: State)
    requires |m.passes| == 1 && m.passes[0].Working? && m.passes[0].todo == []
    ensures Step(m, Requeue(0)) == Some(m.(pending := m.passes[0].retryQueue + m.pending,
                                           passes := [Acking(Keep(m.passes[0].decryptedIds, m.pendingAck))]))
  {
    hide Keep;
    var acking := Acking(Keep(m.passes[0].decryptedIds, m.pendingAck));
    assert m.passes[0 := acking] == [acking];
  }

  lemma {:induction false} DecodeKeepsPending(m: State, results: seq<bool>)
    requires |m.passes| == 1 && m.passes[0].Working? && Run(m, DecodeEvents(results)).Some?
    ensures var m' := Run(m, DecodeEvents(results)).value;
            m'.pending == m.pending && |m'.passes| == 1 && m'.passes[0].Working?
  {
    hide Step;
    if |results| > 0 {
      var front := results[..|results| - 1];
      assert DecodeEvents(results)[..|results| - 1] == DecodeEvents(front);
      DecodeKeepsPending(m, front);
      DecodeOne(Run(m, DecodeEvents(front)).value, results[|results| - 1]);
    }
  }

  lemma DecodeOne(m: State, ok: bool)
    requires |m.passes| == 1 && m.passes[0].Working? && Step(m, Decode(0, ok)).Some?
    ensures var m' := Step(m, Decode(0, ok)).value;
            m'.pending == m.pending && |m'.passes| == 1 && m'.passes[0].Working?
  {
    DecodeFacts(m, ok);
  }

  lemma DeferStep(retry: map<Id, Retry>, batch: seq<Share>, at: int, i: nat)
    requires i < |batch|
    ensures var sofar, id := AfterKeyFailure(retry, batch[..i], at), batch[i].id;
            AfterKeyFailure(retry, batch[..i + 1], at) == sofar[id := Retry(AttemptsOf(sofar, id), at)]
  {
    var ids, more := IdsIn(batch[..i]), IdsIn(batch[..i + 1]);
    assert batch[..i + 1][i] == batch[i];
    forall id | id in ids ensures id in more {
      var k :| 0 <= k < i && batch[..i][k].id == id;
      assert batch[..i + 1][k].id == id;
    }
    forall id | id in more ensures id in ids || id == batch[i].id {
      var k :| 0 <= k < i + 1 && batch[..i + 1][k].id == id;
      if k < i { assert batch[..i][k].id == id; }
    }
    assert more == ids + {batch[i].id};
  }

  function DecodeEvents(results: seq<bool>): seq<Event> {
    seq(|results|, i requires 0 <= i < |results| => Decode(0, results[i]))
  }

  lemma DecodeEventsStep(m: State, results: seq<bool>, i: nat)
    requires i < |results| && Run(m, DecodeEvents(results[..i])).Some?
    ensures Run(m, DecodeEvents(results[..i + 1]))
            == Step(Run(m, DecodeEvents(results[..i])).value, Decode(0, results[i]))
  {
    hide Step;
    var more := DecodeEvents(results[..i + 1]);
    assert more[..i] == DecodeEvents(results[..i]) && more[i] == Decode(0, results[i]);
  }

  lemma DecodeFacts(m: State, ok: bool)
    requires |m.passes| == 1 && Step(m, Decode(0, ok)).Some?
    ensures var m' := Step(m, Decode(0, ok)).value;
            && m'.now == m.now && m'.pending == m.pending && |m'.passes| == 1 && m'.passes[0].Working?
            && m'.passes[0].todo == m.passes[0].todo[1..] && m'.passes[0].began == m.passes[0].began
            && m'.passes[0].maxSize == m.passes[0].maxSize
  {
    hide AfterFailure, Oversize;
  }
}
