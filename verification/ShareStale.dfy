/** Which shares the retry entries belong to: queued or taken ones, or ones dropped as oversize. */
module ShareStale {
  import opened Common
  import opened ShareModel
  import opened ShareSafety
  import opened ShareRetries

  ghost predicate HasId(shares: multiset<Share>, id: Id) {
    exists x :: x in shares && x.id == id
  }

  /** The shares a retry entry can belong to. */
  function Keepers(s: State): multiset<Share> {
    multiset(s.pending) + Taken(s) + s.oversize
  }

  ghost predicate EntriesOwned(s: State) {
    forall id | id in s.retry :: HasId(Keepers(s), id)
  }

  lemma MoreKeepers(s: State, s': State)
    requires EntriesOwned(s) && s'.retry.Keys <= s.retry.Keys && Keepers(s) <= Keepers(s')
    ensures EntriesOwned(s')
  {
    hide Keepers;
    forall id | id in s'.retry ensures HasId(Keepers(s'), id) {
      assert HasId(Keepers(s), id);
      var x :| x in Keepers(s) && x.id == id;
      assert x in Keepers(s');
    }
  }

  /** Decoding one share touches no entry but its own, and leaves that one only while the share is kept. */
  lemma DecodeEntries(s: State, p: nat, ok: bool)
    requires SinglePass(s) && StepDecode(s, p, ok).Some?
    ensures var s', share := StepDecode(s, p, ok).value, s.passes[p].todo[0];
            var over := Oversize(share, s.passes[p].maxSize);
            && s'.retry.Keys <= s.retry.Keys + {share.id} && s'.pending == s.pending
            && s'.oversize == s.oversize + (if over then multiset{share} else multiset{})
            && (share.id in s'.retry ==> over || |s'.passes[p].retryQueue| > |s.passes[p].retryQueue|)
            && |s'.passes[p].retryQueue| >= |s.passes[p].retryQueue|
            && (over ==> s'.passes[p].retryQueue == s.passes[p].retryQueue)
  {
    hide Oversize, BackoffDelay;
  }

  lemma DecodeOwned(s: State, p: nat, ok: bool)
    requires SinglePass(s) && EntriesOwned(s) && StepDecode(s, p, ok).Some?
    ensures EntriesOwned(StepDecode(s, p, ok).value)
  {
    var s', share := StepDecode(s, p, ok).value, s.passes[p].todo[0];
    hide Oversize, StepDecode, Taken;
    DecodeTakes(s, p, ok);
    DecodeEntries(s, p, ok);
    TakesFirst(s, p);
    forall id | id in s'.retry ensures HasId(Keepers(s'), id) {
      if id == share.id {
        assert share in Keepers(s');
      } else {
        assert HasId(Keepers(s), id);
        var x :| x in Keepers(s) && x.id == id;
        assert x in Keepers(s');
      }
    }
  }

  lemma TakesFirst(s: State, p: nat)
    requires SinglePass(s) && p < |s.passes| && s.passes[p].Working? && s.passes[p].todo != []
    ensures s.passes[p].todo[0] in Taken(s)
  {}

  lemma PartitionOwned(s: State, p: nat)
    requires SinglePass(s) && EntriesOwned(s) && StepPartition(s, p).Some?
    ensures EntriesOwned(StepPartition(s, p).value)
  {
    SplitAll(s.pending, s.retry, s.passes[p].began);
    var s' := StepPartition(s, p).value;
    hide EntriesOwned, Split;
    assert multiset(s'.pending) + Taken(s') == multiset(s.pending) + Taken(s);
    MoreKeepers(s, s');
  }

  lemma RequeueOwned(s: State, p: nat)
    requires SinglePass(s) && EntriesOwned(s) && StepRequeue(s, p).Some?
    ensures EntriesOwned(StepRequeue(s, p).value)
  {
    hide EntriesOwned, Keep;
    MoreKeepers(s, StepRequeue(s, p).value);
  }

  lemma ArriveOwned(s: State, share: Share)
    requires EntriesOwned(s)
    ensures EntriesOwned(Step(s, Arrive(share)).value)
  {
    hide EntriesOwned;
    var s' := Step(s, Arrive(share)).value;
    SameTaken(s, s');
    hide Taken;
    MoreKeepers(s, s');
  }

  lemma KeyOwned(s: State, p: nat, loaded: bool)
    requires SinglePass(s) && EntriesOwned(s) && StepKey(s, p, loaded).Some?
    ensures EntriesOwned(StepKey(s, p, loaded).value)
  {
    var s', batch := StepKey(s, p, loaded).value, s.passes[p].batch;
    KeyTakes(s, p, loaded);
    assert Taken(s) == multiset(batch);
    hide Taken;
    forall id | id in s'.retry ensures HasId(Keepers(s'), id) {
      if id in s.retry {
        assert HasId(Keepers(s), id);
        var x :| x in Keepers(s) && x.id == id;
        assert x in Keepers(s');
      } else {
        var i :| 0 <= i < |batch| && batch[i].id == id;
        assert batch[i] in Keepers(s');
      }
    }
  }

  lemma OtherOwned(s: State, e: Event)
    requires SinglePass(s) && EntriesOwned(s) && Step(s, e).Some?
    requires !e.Decode? && !e.Partition? && !e.Arrive? && !e.Requeue? && !e.Key?
    ensures EntriesOwned(Step(s, e).value)
  {
    hide EntriesOwned, Taken, SinglePass, AnyDue, Keep;
    OtherTakes(s, e);
    MoreKeepers(s, Step(s, e).value);
  }

  lemma EntriesStep(s: State, e: Event)
    requires SinglePass(s) && EntriesOwned(s) && Step(s, e).Some?
    ensures EntriesOwned(Step(s, e).value)
  {
    hide EntriesOwned, SinglePass;
    if e.Decode? {
      DecodeOwned(s, e.pass, e.ok);
    } else if e.Partition? {
      PartitionOwned(s, e.pass);
    } else if e.Arrive? {
      ArriveOwned(s, e.share);
    } else if e.Requeue? {
      RequeueOwned(s, e.pass);
    } else if e.Key? {
      KeyOwned(s, e.pass, e.loaded);
    } else {
      OtherOwned(s, e);
    }
  }

  lemma {:induction false} RunOwned(s: State, events: seq<Event>)
    requires SinglePass(s) && EntriesOwned(s) && Run(s, events).Some?
    ensures SinglePass(Run(s, events).value) && EntriesOwned(Run(s, events).value)
  {
    hide Step, EntriesOwned, SinglePass;
    if |events| > 0 {
      var front, e := events[..|events| - 1], events[|events| - 1];
      RunOwned(s, front);
      SinglePassStep(Run(s, front).value, e);
      EntriesStep(Run(s, front).value, e);
    }
  }

  /** In every interleaving each retry entry carries the id of a queued, taken or oversize share. */
  lemma EntriesHaveShares(s: State)
    requires Reachable(s)
    ensures forall id | id in s.retry ::
              exists x :: (x in multiset(s.pending) || x in Taken(s) || x in s.oversize) && x.id == id
  {
    hide Run, Reachable, Taken;
    var now, maxSize, events := Origin(s);
    assert EntriesOwned(Init(now, maxSize)) && SinglePass(Init(now, maxSize));
    RunOwned(Init(now, maxSize), events);
    forall id | id in s.retry
      ensures exists x :: (x in multiset(s.pending) || x in Taken(s) || x in s.oversize) && x.id == id
    {
      assert HasId(Keepers(s), id);
      var x :| x in Keepers(s) && x.id == id;
      assert (x in multiset(s.pending) || x in Taken(s) || x in s.oversize) && x.id == id;
    }
  }

  /** With unique ids, no entry is stale exactly when no share was dropped as oversize with its entry in place. */
  lemma NoStaleEntries(s: State)
    requires Reachable(s) && UniqueIds(s.arrived)
    ensures (forall id | id in s.retry :: exists x :: (x in multiset(s.pending) || x in Taken(s)) && x.id == id)
            <==> forall x | x in s.oversize :: x.id !in s.retry
  {
    hide Reachable, Taken;
    EntriesHaveShares(s);
    AlwaysConserved(s);
    if x :| x in s.oversize && x.id in s.retry {
      forall y | y in multiset(s.pending) || y in Taken(s) ensures y.id != x.id {
        OncePlaced(s, x, y);
      }
    }
    if forall x | x in s.oversize :: x.id !in s.retry {
      forall id | id in s.retry ensures exists x :: (x in multiset(s.pending) || x in Taken(s)) && x.id == id {
        var x :| (x in multiset(s.pending) || x in Taken(s) || x in s.oversize) && x.id == id;
        assert x in multiset(s.pending) || x in Taken(s);
      }
    }
  }

  /** A share dropped as oversize is not queued or taken as well. */
  lemma OncePlaced(s: State, x: Share, y: Share)
    requires UniqueIds(s.arrived) && x in s.oversize && (y in multiset(s.pending) || y in Taken(s))
    requires s.arrived == multiset(s.pending) + Taken(s) + multiset(s.decrypted) + s.quarantined + s.oversize
    ensures y.id != x.id
  {
    hide Taken;
    assert x in s.arrived && y in s.arrived && s.arrived[x] == 1;
  }

  /******* The step that leaves an entry behind *******/

  /** No share was dropped as oversize with its entry in place. */
  ghost predicate NoOversizeEntry(s: State) {
    forall x | x in s.oversize :: x.id !in s.retry
  }

  /** A pass meets an oversize share that has failed before: it is skipped, and its entry is not removed. */
  predicate DropsWithEntry(s: State, e: Event) {
    && e.Decode? && StepDecode(s, e.pass, e.ok).Some?
    && var share := s.passes[e.pass].todo[0];
       Oversize(share, s.passes[e.pass].maxSize) && share.id in s.retry
  }

  /** A share in a pass is not one that was dropped. */
  lemma TakenApart(s: State, y: Share)
    requires Reachable(s) && UniqueIds(s.arrived) && y in Taken(s)
    ensures forall x | x in s.oversize :: x.id != y.id
  {
    hide Reachable, Taken, UniqueIds;
    AlwaysConserved(s);
    forall x | x in s.oversize ensures x.id != y.id { OncePlaced(s, x, y); }
  }

  /** Entries other than that of the decoded share stay as they were, and a dropped share's own does too. */
  lemma DecodeOtherEntries(s: State, p: nat, ok: bool)
    requires SinglePass(s) && StepDecode(s, p, ok).Some?
    ensures var s', share := StepDecode(s, p, ok).value, s.passes[p].todo[0];
            && (forall id | id != share.id :: id in s'.retry <==> id in s.retry)
            && (Oversize(share, s.passes[p].maxSize) ==> s'.retry == s.retry)
  {
    hide Oversize, BackoffDelay;
  }

  lemma DecodeOversizeEntry(s: State, p: nat, ok: bool)
    requires Reachable(s) && SinglePass(s) && UniqueIds(s.arrived) && StepDecode(s, p, ok).Some?
    ensures NoOversizeEntry(StepDecode(s, p, ok).value) <==> NoOversizeEntry(s) && !DropsWithEntry(s, Decode(p, ok))
  {
    var s', share := StepDecode(s, p, ok).value, s.passes[p].todo[0];
    TakesFirst(s, p);
    TakenApart(s, share);
    DecodeEntries(s, p, ok);
    DecodeOtherEntries(s, p, ok);
    assert DropsWithEntry(s, Decode(p, ok)) == (Oversize(share, s.passes[p].maxSize) && share.id in s.retry);
    hide Reachable, StepDecode, Oversize, Taken, UniqueIds, DropsWithEntry;
    forall x | x in s.oversize ensures x in s'.oversize {}
  }

  lemma KeyOversizeEntry(s: State, p: nat, loaded: bool)
    requires Reachable(s) && SinglePass(s) && UniqueIds(s.arrived) && StepKey(s, p, loaded).Some?
    ensures NoOversizeEntry(StepKey(s, p, loaded).value) <==> NoOversizeEntry(s)
  {
    var s', batch := StepKey(s, p, loaded).value, s.passes[p].batch;
    assert Taken(s) == multiset(batch);
    hide Reachable, Taken, UniqueIds;
    forall x | x in s.oversize ensures x.id in s'.retry <==> x.id in s.retry {
      if x.id in IdsIn(batch) {
        var i :| 0 <= i < |batch| && batch[i].id == x.id;
        TakenApart(s, batch[i]);
      }
    }
  }

  lemma OtherOversizeEntry(s: State, e: Event)
    requires !e.Decode? && !e.Key? && Step(s, e).Some?
    ensures Step(s, e).value.oversize == s.oversize && Step(s, e).value.retry == s.retry
  {
    hide AnyDue, Split, Keep, StepDecode, StepKey;
  }

  lemma OversizeEntryStep(s: State, e: Event)
    requires Reachable(s) && SinglePass(s) && Step(s, e).Some? && UniqueIds(Step(s, e).value.arrived)
    ensures NoOversizeEntry(Step(s, e).value) <==> NoOversizeEntry(s) && !DropsWithEntry(s, e)
  {
    hide Reachable, SinglePass, UniqueIds, NoOversizeEntry;
    UniqueBefore(s, e);
    if e.Decode? {
      DecodeOversizeEntry(s, e.pass, e.ok);
    } else if e.Key? {
      KeyOversizeEntry(s, e.pass, e.loaded);
    } else {
      OtherOversizeEntry(s, e);
      assert NoOversizeEntry(Step(s, e).value) == NoOversizeEntry(s) by { SameOversizeEntry(s, Step(s, e).value); }
    }
  }

  lemma SameOversizeEntry(s: State, s': State)
    requires s'.oversize == s.oversize && s'.retry == s.retry
    ensures NoOversizeEntry(s') == NoOversizeEntry(s)
  {}

  /** The `k`-th event of a run drops an oversize share that has an entry. */
  ghost predicate DropsAt(init: State, events: seq<Event>, k: nat) {
    k < |events| && Run(init, events[..k]).Some? && DropsWithEntry(Run(init, events[..k]).value, events[k])
  }

  lemma DropsFront(init: State, events: seq<Event>, k: nat)
    requires k < |events| - 1
    ensures DropsAt(init, events, k) == DropsAt(init, events[..|events| - 1], k)
  {
    hide DropsWithEntry;
    assert events[..|events| - 1][..k] == events[..k];
  }

  lemma LastStep(now: int, maxSize: U64, events: seq<Event>)
    requires |events| > 0 && Run(Init(now, maxSize), events).Some?
    ensures var init, front, e := Init(now, maxSize), events[..|events| - 1], events[|events| - 1];
            && Run(init, front).Some? && Reachable(Run(init, front).value) && SinglePass(Run(init, front).value)
            && Step(Run(init, front).value, e) == Run(init, events)
            && DropsAt(init, events, |events| - 1) == DropsWithEntry(Run(init, front).value, e)
  {
    hide Step, DropsWithEntry;
    var init, front := Init(now, maxSize), events[..|events| - 1];
    assert Run(init, front) == Some(Run(init, front).value);
    AlwaysConserved(Run(init, front).value);
  }

  lemma {:induction false} RunOversizeEntry(now: int, maxSize: U64, events: seq<Event>)
    requires Run(Init(now, maxSize), events).Some? && UniqueIds(Run(Init(now, maxSize), events).value.arrived)
    ensures NoOversizeEntry(Run(Init(now, maxSize), events).value)
            <==> forall k: nat | k < |events| :: !DropsAt(Init(now, maxSize), events, k)
  {
    hide Reachable, UniqueIds, DropsAt, DropsWithEntry, Step, SinglePass;
    if |events| > 0 {
      hide NoOversizeEntry, Run;
      var init, n, front := Init(now, maxSize), |events| - 1, events[..|events| - 1];
      LastStep(now, maxSize, events);
      var s := Run(init, front).value;
      UniqueBefore(s, events[n]);
      RunOversizeEntry(now, maxSize, front);
      OversizeEntryStep(s, events[n]);
      forall k: nat | k < n ensures DropsAt(init, events, k) == DropsAt(init, front, k) { DropsFront(init, events, k); }
    }
  }

  /**
   With unique ids, after any run every entry belongs to a queued or taken share exactly
   when no step of the run met an oversize share that had failed before.
   */
  lemma NoStaleAfter(now: int, maxSize: U64, events: seq<Event>)
    requires Run(Init(now, maxSize), events).Some? && UniqueIds(Run(Init(now, maxSize), events).value.arrived)
    ensures var init := Init(now, maxSize);
            var s := Run(init, events).value;
            (forall id | id in s.retry :: exists x :: (x in multiset(s.pending) || x in Taken(s)) && x.id == id)
            <==> forall k: nat | k < |events| ::
                   !(Run(init, events[..k]).Some? && DropsWithEntry(Run(init, events[..k]).value, events[k]))
  {
    var init := Init(now, maxSize);
    var s := Run(init, events).value;
    assert Reachable(s) by { assert Run(init, events) == Some(s); }
    forall k: nat | k < |events|
      ensures DropsAt(init, events, k)
              == (Run(init, events[..k]).Some? && DropsWithEntry(Run(init, events[..k]).value, events[k])) {}
    hide Reachable, Taken, UniqueIds, DropsAt, DropsWithEntry, Run;
    NoStaleEntries(s);
    RunOversizeEntry(now, maxSize, events);
  }

  /******* A stale entry *******/

  function Follow(s: Option<State>, e: Event): Option<State> {
    if s.Some? then Step(s.value, e) else None
  }

  lemma ReachableFollow(s: Option<State>, e: Event)
    requires s.Some? && Reachable(s.value) && Follow(s, e).Some?
    ensures Reachable(Follow(s, e).value)
  {
    var now, maxSize, events := Origin(s.value);
    RunSnoc(Init(now, maxSize), events, s.value, e);
    assert Run(Init(now, maxSize), events + [e]) == Follow(s, e);
  }

  /** A pass begins over the one queued share. */
  lemma PassBegins(s: State, share: Share) returns (s': State)
    requires Reachable(s) && s.pending == [share] && IsDue(s.retry, s.now, share)
    requires s.passes == [] && !s.inFlight && s.sawDue == {}
    ensures Reachable(s')
    ensures s' == s.(pending := [], inFlight := true, passes := [Working(s.now, s.maxSize, [share], [], [])])
  {
    hide Run, Reachable, IsDue, Split;
    assert s.pending[0] == share && AnyDue(s.pending, s.retry, s.now);
    OneDue(share, s.retry, s.now);
    var s1 := Follow(Some(s), Check(0));
    var s2 := Follow(s1, Start(0));
    assert s2.value == s.(inFlight := true, passes := [Starting]);
    var s3 := Follow(s2, Clock(0));
    assert s3.value == s.(inFlight := true, passes := [Clocked(s.now, s.maxSize)]);
    var s4 := Follow(s3, Partition(0));
    assert s4.value == s.(pending := [], inFlight := true, passes := [AwaitingKey(s.now, s.maxSize, [share])]);
    var s5 := Follow(s4, Key(0, true));
    ReachableFollow(Some(s), Check(0));
    ReachableFollow(s1, Start(0));
    ReachableFollow(s2, Clock(0));
    ReachableFollow(s3, Partition(0));
    ReachableFollow(s4, Key(0, true));
    s' := s5.value;
  }

  lemma OneDue(share: Share, retry: map<Id, Retry>, now: int)
    requires IsDue(retry, now, share)
    ensures Split([share], retry, now, true) == [share] && Split([share], retry, now, false) == []
  {
    hide IsDue;
    assert [share][..0] == [];
  }

  /** The share fails once, the size limit drops, and the next pass drops the share as oversize. */
  lemma StaleEntryReachable() returns (s: State)
    ensures Reachable(s) && UniqueIds(s.arrived)
    ensures s.pending == [] && s.passes == [] && "a" in s.retry && Share("a", 15) in s.oversize
  {
    hide Run, Reachable;
    var share := Share("a", 15);
    var failed := FailsOnce(share);
    var s1 := Follow(Some(failed), SetMaxSize(5));
    var s2 := Follow(s1, Tick(2));
    ReachableFollow(Some(failed), SetMaxSize(5));
    ReachableFollow(s1, Tick(2));
    var working := PassBegins(s2.value, share);
    s := DropsShare(working, share);
  }

  lemma FailsOnce(share: Share) returns (s: State)
    requires share == Share("a", 15)
    ensures Reachable(s) && s.passes == [] && !s.inFlight && s.sawDue == {} && s.pending == [share] && s.now == 0
    ensures s.retry == map["a" := Retry(1, 2)] && s.oversize == multiset{} && s.arrived == multiset{share}
  {
    hide Run, Reachable;
    var init := Init(0, 10);
    assert Run(init, []) == Some(init) by { NoEvents(init); }
    assert Reachable(init) by { Starts(); }
    var s1 := Follow(Some(init), Arrive(share));
    ReachableFollow(Some(init), Arrive(share));
    var working := PassBegins(s1.value, share);
    assert BackoffDelay(1) == 2 by { assert Pow2(0) == 1; }
    hide BackoffDelay;
    FailsAt(working, share);
    hide Step;
    ReachableFollow(Some(working), Decode(0, false));
    s := PassEnds(Step(working, Decode(0, false)).value, [share]);
  }

  /** A pass that decoded nothing ends: what it keeps is queued again. */
  lemma PassEnds(s: State, kept: seq<Share>) returns (s': State)
    requires Reachable(s) && s.pending == [] && |s.passes| == 1
    requires s.passes[0].Working? && s.passes[0].todo == [] && s.passes[0].retryQueue == kept
             && s.passes[0].decryptedIds == []
    ensures Reachable(s') && s' == s.(pending := kept, inFlight := false, passes := [])
  {
    hide Run, Reachable;
    assert kept + [] == kept && Keep([], s.pendingAck) == [];
    var s1 := Follow(Some(s), Requeue(0));
    assert s1.value.passes == [Acking([])];
    var s2 := Follow(s1, End(0));
    assert s2.value.passes == [];
    ReachableFollow(Some(s), Requeue(0));
    ReachableFollow(s1, End(0));
    s' := s2.value;
  }

  lemma FailsAt(s: State, share: Share)
    requires s.now == 0 && s.passes == [Working(0, 10, [share], [], [])] && s.retry == map[] && share == Share("a", 15)
    requires BackoffDelay(1) == 2
    ensures Step(s, Decode(0, false))
            == Some(s.(retry := map["a" := Retry(1, 2)], failures := s.failures + [Failure("a", 1, 0, 0)],
                       passes := [Working(0, 10, [], [share], [])]))
  {
    hide BackoffDelay;
    assert !Oversize(share, 10) && AttemptsOf(s.retry, "a") == 0;
    var pass := s.passes[0];
    assert [share][1..] == [] && [] + [share] == [share];
    assert s.passes[0 := Working(0, 10, [share][1..], [] + [share], [])] == [Working(0, 10, [], [share], [])];
    assert pass.(todo := pass.todo[1..]).(retryQueue := pass.retryQueue + [share])
           == Working(0, 10, [share][1..], [] + [share], []);
  }

  lemma NoEvents(s: State)
    ensures Run(s, []) == Some(s)
  {}

  lemma Starts()
    ensures Reachable(Init(0, 10))
  {
    assert Run(Init(0, 10), []) == Some(Init(0, 10));
  }

  lemma DropsShare(working: State, share: Share) returns (s: State)
    requires Reachable(working) && working.pending == [] && working.maxSize == 5 && share == Share("a", 15)
    requires working.passes == [Working(2, 5, [share], [], [])] && "a" in working.retry
    ensures Reachable(s) && s.pending == [] && s.passes == [] && s.retry == working.retry
            && s.arrived == working.arrived
    ensures s.oversize == working.oversize + multiset{share}
  {
    hide Run, Reachable;
    assert Oversize(share, 5);
    var s1 := Follow(Some(working), Decode(0, true));
    assert [share][1..] == [];
    assert working.passes[0 := Working(2, 5, [share][1..], [], [])] == [Working(2, 5, [], [], [])];
    ReachableFollow(Some(working), Decode(0, true));
    s := PassEnds(s1.value, []);
  }
}
