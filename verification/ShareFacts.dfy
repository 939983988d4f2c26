/** What the steps of a pass do, in terms of the queue, the clock and the outcomes alone. */
module ShareFacts {
  import opened Common
  import opened ShareModel

  /** A share may be attempted: it never failed, or its next attempt has come. */
  predicate Due(retry: map<Id, Retry>, now: int, share: Share) {
    share.id !in retry || now >= retry[share.id].nextRetryAt
  }

  /** The due shares, and likewise the others, are picked from the queue in order. */
  lemma {:induction false} SplitPicks(pending: seq<Share>, retry: map<Id, Retry>, now: int, due: bool)
    returns (keep: seq<bool>, ps: seq<nat>)
    ensures Picks(Split(pending, retry, now, due), pending, keep, ps)
    ensures |keep| == |pending| && forall p | 0 <= p < |pending| :: keep[p] == (Due(retry, now, pending[p]) == due)
  {
    hide Picks;
    if |pending| == 0 {
      PicksNone<Share>();
      keep, ps := [], [];
    } else {
      var n := |pending| - 1;
      keep, ps := SplitPicks(pending[..n], retry, now, due);
      var kept := Due(retry, now, pending[n]) == due;
      assert pending[..n] + [pending[n]] == pending;
      PicksMore(Split(pending[..n], retry, now, due), pending[..n], keep, ps, pending[n], kept);
      keep, ps := keep + [kept], if kept then ps + [n] else ps;
    }
  }

  /** A pass is worth starting exactly when some queued share is due. */
  lemma AnyDueMeans(pending: seq<Share>, retry: map<Id, Retry>, now: int)
    ensures AnyDue(pending, retry, now) <==> exists i :: 0 <= i < |pending| && Due(retry, now, pending[i])
  {
    if i :| 0 <= i < |pending| && Due(retry, now, pending[i]) { assert IsDue(retry, now, pending[i]); }
    if AnyDue(pending, retry, now) {
      var i :| 0 <= i < |pending| && IsDue(retry, now, pending[i]);
      assert Due(retry, now, pending[i]);
    }
  }

  /** The ids acknowledged are the decrypted ones still awaiting it, in order. */
  lemma {:induction false} KeepPicks(ids: seq<Id>, kept: set<Id>) returns (keep: seq<bool>, ps: seq<nat>)
    ensures Picks(Keep(ids, kept), ids, keep, ps)
    ensures |keep| == |ids| && forall p | 0 <= p < |ids| :: keep[p] == (ids[p] in kept)
  {
    hide Picks;
    if |ids| == 0 {
      PicksNone<Id>();
      keep, ps := [], [];
    } else {
      var n := |ids| - 1;
      keep, ps := KeepPicks(ids[..n], kept);
      var front := Keep(ids[..n], kept);
      assert ids[..n] + [ids[n]] == ids && front + [] == front;
      PicksMore(front, ids[..n], keep, ps, ids[n], ids[n] in kept);
      keep, ps := keep + [ids[n] in kept], if ids[n] in kept then ps + [n] else ps;
    }
  }

  /** With a size limit, a share of more than twice that size is not decrypted. */
  predicate TooBig(share: Share, maxSize: U64) {
    maxSize < U64_MAX && share.size > 2 * maxSize
  }

  /**
   One share: too big, it is dropped and everything else stays; decrypted, its entry goes
   and its id is kept for the acknowledgement; failed for the fifth time, it is given up
   and its entry goes; failed before that, it is queued again to wait 2, 4, 8 or 16 seconds.
   */
  lemma DecodeSettles(s: State, p: nat, ok: bool)
    requires StepDecode(s, p, ok).Some?
    ensures var s', pass, share := StepDecode(s, p, ok).value, s.passes[p], s.passes[p].todo[0];
            var pass', attempts := s'.passes[p], if share.id in s.retry then s.retry[share.id].attempts else 0;
            && pass'.Working? && pass'.todo == pass.todo[1..] && s'.pending == s.pending
            && (if TooBig(share, pass.maxSize) then
                  && s'.oversize == s.oversize + multiset{share} && s'.retry == s.retry && s'.decrypted == s.decrypted
                  && s'.quarantined == s.quarantined && s'.failures == s.failures
                  && pass'.retryQueue == pass.retryQueue && pass'.decryptedIds == pass.decryptedIds
                else if ok then
                  && s'.decrypted == s.decrypted + [share] && s'.retry == s.retry - {share.id}
                  && s'.quarantined == s.quarantined && s'.oversize == s.oversize && s'.failures == s.failures
                  && pass'.retryQueue == pass.retryQueue && pass'.decryptedIds == pass.decryptedIds + [share.id]
                else
                  && s'.decrypted == s.decrypted && s'.oversize == s.oversize
                  && s'.failures == s.failures + [Failure(share.id, attempts + 1, pass.began, s.now)]
                  && pass'.decryptedIds == pass.decryptedIds
                  && (if attempts >= 4 then
                        && s'.quarantined == s.quarantined + multiset{share} && s'.retry == s.retry - {share.id}
                        && pass'.retryQueue == pass.retryQueue
                      else
                        && s'.quarantined == s.quarantined && pass'.retryQueue == pass.retryQueue + [share]
                        && s'.retry == s.retry[share.id := Retry(attempts + 1, s.now + [2, 4, 8, 16][attempts])]))
  {
    hide Pow2;
    Powers();
  }

  lemma Powers()
    ensures Pow2(0) == 1 && Pow2(1) == 2 && Pow2(2) == 4 && Pow2(3) == 8
  {}

  /** Without the key the whole batch is queued again to wait five seconds, no attempt counted. */
  lemma KeyDefers(s: State, p: nat)
    requires StepKey(s, p, false).Some?
    ensures var s', batch := StepKey(s, p, false).value, s.passes[p].batch;
            && s'.passes[p].Working? && s'.passes[p].todo == [] && s'.passes[p].retryQueue == batch
            && s'.passes[p].decryptedIds == []
            && (forall i | 0 <= i < |batch| ::
                  && batch[i].id in s'.retry && s'.retry[batch[i].id].nextRetryAt == s.now + 5
                  && s'.retry[batch[i].id].attempts
                     == if batch[i].id in s.retry then s.retry[batch[i].id].attempts else 0)
            && (forall id | (forall i | 0 <= i < |batch| :: batch[i].id != id) ::
                  && (id in s'.retry <==> id in s.retry)
                  && (id in s.retry ==> s'.retry[id] == s.retry[id]))
  {
    var s', batch := StepKey(s, p, false).value, s.passes[p].batch;
    forall i | 0 <= i < |batch| ensures batch[i].id in IdsIn(batch) {}
  }
}
