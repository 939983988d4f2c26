/**
 Pairing the two halves of a rename that the system reports separately. Handling an
 event takes the lock twice, and the consumer's idle flush may come between. Times are
 milliseconds.
 */
module RenamePairing {
  import opened Common

  const PENDING_RENAME_TIMEOUT: int := 500

  type Path = string

  datatype RenameMode = From | To | AnyMode | OtherMode

  datatype RawEvent =
    | Name(mode: RenameMode, paths: seq<Path>)
    | ModifyOrCreate(paths: seq<Path>)
    | Remove(paths: seq<Path>)
    | Ignored

  datatype WatchEvent = Modified(path: Path) | Deleted(path: Path) | Renamed(from: Path, to: Path)

  /** A stored first half, with its serial number. */
  datatype Pending = Pending(path: Path, storedAt: int, serial: nat)

  /** What became of a stored first half. */
  datatype Fate = Paired(to: Path, at: int) | Expired(at: int) | Flushed | Overwritten

  /** An emitted event; `source` is the stored half it used up, if any. */
  datatype Sent = Sent(event: WatchEvent, source: Option<nat>)

  /** The event being handled, and when the pending half was last checked for it. */
  datatype Handling = Handling(raw: RawEvent, checkedAt: int)

  datatype State = State(
    pending: Option<Pending>,
    handling: Option<Handling>,
    sent: seq<Sent>,
    stored: seq<Pending>,
    fates: map<nat, Fate>)

  const Init := State(None, None, [], [], map[])

  function IsStale(p: Pending, now: int): bool {
    now - p.storedAt >= PENDING_RENAME_TIMEOUT
  }

  function Send(s: State, event: WatchEvent): State {
    s.(sent := s.sent + [Sent(event, None)])
  }

  /** Uses up the pending half. */
  function Use(s: State, event: WatchEvent, fate: Fate): State
    requires s.pending.Some?
  {
    s.(pending := None, sent := s.sent + [Sent(event, Some(s.pending.value.serial))],
       fates := s.fates[s.pending.value.serial := fate])
  }

  /** A half that waited too long becomes a deletion. */
  function Expire(s: State, now: int): State {
    if s.pending.Some? && IsStale(s.pending.value, now)
    then Use(s, Deleted(s.pending.value.path), Expired(now))
    else s
  }

  function SendAll(s: State, paths: seq<Path>, deleted: bool): State {
    if |paths| == 0 then s
    else
      var path := paths[|paths| - 1];
      Send(SendAll(s, paths[..|paths| - 1], deleted), if deleted then Deleted(path) else Modified(path))
  }

  /** A new first half replaces one that is still waiting. */
  function StoreFrom(s: State, path: Path, now: int): State {
    var serial := |s.stored|;
    s.(pending := Some(Pending(path, now, serial)), stored := s.stored + [Pending(path, now, serial)],
       fates := if s.pending.Some? then s.fates[s.pending.value.serial := Overwritten] else s.fates)
  }

  function OnSingle(s: State, mode: RenameMode, path: Path, checkedAt: int, now: int): State {
    match mode
    case From => StoreFrom(s, path, now)
    case To =>
      if s.pending.Some? then Use(s, Renamed(s.pending.value.path, path), Paired(path, checkedAt))
      else Send(s, Modified(path))
    case _ =>
      var flushed := if s.pending.Some? then Use(s, Deleted(s.pending.value.path), Flushed) else s;
      if mode.AnyMode? then Send(flushed, Deleted(path)) else flushed
  }

  /** The second section of the handler, whatever became of the pending half since the check. */
  function Dispatch(s: State, raw: RawEvent, checkedAt: int, now: int): State {
    match raw
    case Name(mode, paths) =>
      if |paths| == 2 then Send(s, Renamed(paths[0], paths[1]))
      else if |paths| == 1 then OnSingle(s, mode, paths[0], checkedAt, now)
      else s
    case ModifyOrCreate(paths) => SendAll(s, paths, false)
    case Remove(paths) => SendAll(s, paths, true)
    case Ignored => s
  }

  datatype Step = Begin(raw: RawEvent, now: int) | Finish(now: int) | Flush(now: int)

  /** Events are handled one at a time; the idle flush runs beside. */
  function Next(s: State, step: Step): Option<State> {
    match step
    case Begin(raw, now) =>
      if s.handling.Some? then None else Some(Expire(s, now).(handling := Some(Handling(raw, now))))
    case Finish(now) =>
      if s.handling.None? then None
      else Some(Dispatch(s.(handling := None), s.handling.value.raw, s.handling.value.checkedAt, now))
    case Flush(now) => Some(Expire(s, now))
  }

  /** The state after a timed trace of handler sections and idle flushes. */
  function Run(trace: seq<Step>): Option<State> {
    if |trace| == 0 then Some(Init)
    else
      var front := Run(trace[..|trace| - 1]);
      if front.None? then None else Next(front.value, trace[|trace| - 1])
  }

  /******* Every stored half has one fate *******/

  /** The event a fate shows up as. */
  ghost predicate Shows(p: Pending, fate: Fate, event: WatchEvent) {
    match fate
    case Paired(to, at) => event == Renamed(p.path, to) && at - p.storedAt < 500
    case Expired(at) => event == Deleted(p.path) && at - p.storedAt >= 500
    case Flushed => event == Deleted(p.path)
    case Overwritten => false
  }

  /** The pending half was not stale when the running handler checked it. */
  ghost predicate Checked(s: State) {
    s.handling.Some? && s.pending.Some? ==>
      s.handling.value.checkedAt - s.pending.value.storedAt < PENDING_RENAME_TIMEOUT
  }

  ghost predicate Inv(s: State) {
    && (forall k | 0 <= k < |s.stored| :: s.stored[k].serial == k)
    && (s.pending.Some? ==> s.stored != [] && s.pending.value == s.stored[|s.stored| - 1])
    && (forall k: nat :: k in s.fates <==> k < |s.stored| && !(s.pending.Some? && k == |s.stored| - 1))
    && (forall i | 0 <= i < |s.sent| && s.sent[i].source.Some? :: SentOk(s, s.sent[i]))
    && (forall i, j | 0 <= i < j < |s.sent| && s.sent[i].source.Some? :: s.sent[i].source != s.sent[j].source)
    && (forall k | k in s.fates && !s.fates[k].Overwritten? :: exists i :: IsSource(s.sent, i, k))
  }

  ghost predicate SentOk(s: State, sent: Sent)
    requires sent.source.Some?
  {
    sent.source.value in s.fates && sent.source.value < |s.stored|
    && Shows(s.stored[sent.source.value], s.fates[sent.source.value], sent.event)
  }

  ghost predicate IsSource(sent: seq<Sent>, i: int, k: nat) {
    0 <= i < |sent| && sent[i].source == Some(k)
  }

  lemma SendInv(s: State, event: WatchEvent)
    requires Inv(s)
    ensures Inv(Send(s, event))
  {
    var s' := Send(s, event);
    forall k | k in s.fates && !s.fates[k].Overwritten? ensures exists i :: IsSource(s'.sent, i, k) {
      var i :| IsSource(s.sent, i, k);
      assert IsSource(s'.sent, i, k);
    }
    forall i | 0 <= i < |s'.sent| && s'.sent[i].source.Some?
      ensures SentOk(s', s'.sent[i])
    {
      assert SentOk(s, s.sent[i]);
    }
  }

  lemma UseInv(s: State, event: WatchEvent, fate: Fate)
    requires Inv(s) && s.pending.Some? && Shows(s.pending.value, fate, event)
    ensures Inv(Use(s, event, fate))
  {
    var s', serial := Use(s, event, fate), s.pending.value.serial;
    assert serial == |s.stored| - 1 && serial !in s.fates;
    forall i | 0 <= i < |s.sent| && s.sent[i].source.Some?
      ensures SentOk(s', s'.sent[i]) && s.sent[i].source.value != serial
    {
      assert SentOk(s, s.sent[i]);
    }
    assert SentOk(s', s'.sent[|s.sent|]);
    forall k | k in s'.fates && !s'.fates[k].Overwritten? ensures exists i :: IsSource(s'.sent, i, k) {
      if k == serial {
        assert IsSource(s'.sent, |s.sent|, k);
      } else {
        var i :| IsSource(s.sent, i, k);
        assert IsSource(s'.sent, i, k);
      }
    }
  }

  lemma StoreInv(s: State, path: Path, now: int)
    requires Inv(s)
    ensures Inv(StoreFrom(s, path, now))
  {
    var s' := StoreFrom(s, path, now);
    forall i | 0 <= i < |s.sent| && s.sent[i].source.Some?
      ensures SentOk(s', s'.sent[i])
    {
      assert SentOk(s, s.sent[i]);
    }
    forall k | k in s'.fates && !s'.fates[k].Overwritten? ensures exists i :: IsSource(s'.sent, i, k) {
      var i :| IsSource(s.sent, i, k);
    }
  }

  lemma ExpireInv(s: State, now: int)
    requires Inv(s)
    ensures Inv(Expire(s, now))
    ensures Expire(s, now).pending.Some? ==> now - Expire(s, now).pending.value.storedAt < PENDING_RENAME_TIMEOUT
  {
    if s.pending.Some? && IsStale(s.pending.value, now) { UseInv(s, Deleted(s.pending.value.path), Expired(now)); }
  }

  lemma {:induction false} SendAllInv(s: State, paths: seq<Path>, deleted: bool)
    requires Inv(s)
    ensures Inv(SendAll(s, paths, deleted))
  {
    if |paths| > 0 {
      SendAllInv(s, paths[..|paths| - 1], deleted);
      var path := paths[|paths| - 1];
      SendInv(SendAll(s, paths[..|paths| - 1], deleted), if deleted then Deleted(path) else Modified(path));
    }
  }

  lemma OnSingleInv(s: State, mode: RenameMode, path: Path, checkedAt: int, now: int)
    requires Inv(s) && (s.pending.Some? ==> checkedAt - s.pending.value.storedAt < PENDING_RENAME_TIMEOUT)
    ensures Inv(OnSingle(s, mode, path, checkedAt, now))
  {
    hide Inv;
    if mode.From? {
      StoreInv(s, path, now);
    } else if mode.To? {
      if s.pending.Some? {
        UseInv(s, Renamed(s.pending.value.path, path), Paired(path, checkedAt));
      } else {
        SendInv(s, Modified(path));
      }
    } else {
      if s.pending.Some? {
        UseInv(s, Deleted(s.pending.value.path), Flushed);
        SendInv(Use(s, Deleted(s.pending.value.path), Flushed), Deleted(path));
      } else {
        SendInv(s, Deleted(path));
      }
    }
  }

  lemma DispatchInv(s: State, raw: RawEvent, checkedAt: int, now: int)
    requires Inv(s) && (s.pending.Some? ==> checkedAt - s.pending.value.storedAt < PENDING_RENAME_TIMEOUT)
    ensures Inv(Dispatch(s, raw, checkedAt, now))
  {
    hide Inv, OnSingle, SendAll;
    match raw
    case Name(mode, paths) =>
      if |paths| == 2 {
        SendInv(s, Renamed(paths[0], paths[1]));
      } else if |paths| == 1 {
        OnSingleInv(s, mode, paths[0], checkedAt, now);
      }
    case ModifyOrCreate(paths) => SendAllInv(s, paths, false);
    case Remove(paths) => SendAllInv(s, paths, true);
    case Ignored =>
  }

  lemma HandlingInv(s: State, handling: Option<Handling>)
    requires Inv(s)
    ensures Inv(s.(handling := handling))
  {
    var s' := s.(handling := handling);
    forall i | 0 <= i < |s.sent| && s.sent[i].source.Some?
      ensures SentOk(s', s'.sent[i])
    {
      assert SentOk(s, s.sent[i]);
    }
  }

  lemma {:induction false} SendAllIdle(s: State, paths: seq<Path>, deleted: bool)
    ensures SendAll(s, paths, deleted).handling == s.handling
  {
    if |paths| > 0 { SendAllIdle(s, paths[..|paths| - 1], deleted); }
  }

  lemma NextInv(s: State, step: Step)
    requires Inv(s) && Checked(s) && Next(s, step).Some?
    ensures Inv(Next(s, step).value) && Checked(Next(s, step).value)
  {
    hide Inv, OnSingle, SendAll;
    match step
    case Begin(raw, now) =>
      ExpireInv(s, now);
      HandlingInv(Expire(s, now), Some(Handling(raw, now)));
    case Finish(now) =>
      HandlingInv(s, None);
      var handling := s.handling.value;
      DispatchInv(s.(handling := None), handling.raw, handling.checkedAt, now);
      DispatchIdle(s.(handling := None), handling.raw, handling.checkedAt, now);
    case Flush(now) => ExpireInv(s, now);
  }

  lemma DispatchIdle(s: State, raw: RawEvent, checkedAt: int, now: int)
    ensures Dispatch(s, raw, checkedAt, now).handling == s.handling
  {
    if raw.ModifyOrCreate? { SendAllIdle(s, raw.paths, false); }
    if raw.Remove? { SendAllIdle(s, raw.paths, true); }
  }

  lemma {:induction false} RunInv(trace: seq<Step>)
    requires Run(trace).Some?
    ensures Inv(Run(trace).value) && Checked(Run(trace).value)
  {
    hide Inv, Next, Checked;
    if |trace| == 0 {
      InitInv();
    } else {
      RunInv(trace[..|trace| - 1]);
      NextInv(Run(trace[..|trace| - 1]).value, trace[|trace| - 1]);
    }
  }

  lemma InitInv()
    ensures Inv(Init) && Checked(Init)
  {}

  /**
   Whatever flushes come between the two sections of a handler: a stored half is used by
   at most one event, which names its path, and a pairing is younger than the timeout
   when it was checked.
   */
  lemma EachHalfUsedOnce(trace: seq<Step>, i: nat)
    requires Run(trace).Some? && i < |Run(trace).value.sent| && Run(trace).value.sent[i].source.Some?
    ensures var s, k := Run(trace).value, Run(trace).value.sent[i].source.value;
            && k in s.fates && k < |s.stored| && Shows(s.stored[k], s.fates[k], s.sent[i].event)
            && forall j | 0 <= j < |s.sent| && j != i :: s.sent[j].source != Some(k)
  {
    hide Run;
    RunInv(trace);
    var s := Run(trace).value;
    assert SentOk(s, s.sent[i]);
    forall j | 0 <= j < |s.sent| && j != i ensures s.sent[j].source != s.sent[i].source {
      if j < i && s.sent[j].source.Some? { assert s.sent[j].source != s.sent[i].source; }
    }
  }

  /******* What each event makes the watcher send *******/

  /** The events sent on top of `before`. */
  function Added(before: State, after: State): seq<WatchEvent>
    requires |before.sent| <= |after.sent|
  {
    seq(|after.sent| - |before.sent|,
        k requires 0 <= k < |after.sent| - |before.sent| => after.sent[|before.sent| + k].event)
  }

  /** What a path list of one kind is reported as, in order. */
  lemma {:induction false} SendAllSends(s: State, paths: seq<Path>, deleted: bool)
    ensures var s' := SendAll(s, paths, deleted);
            && s'.pending == s.pending && s.sent <= s'.sent && |s'.sent| == |s.sent| + |paths|
            && forall k | 0 <= k < |paths| ::
                 Added(s, s')[k] == if deleted then Deleted(paths[k]) else Modified(paths[k])
  {
    if |paths| > 0 { SendAllSends(s, paths[..|paths| - 1], deleted); }
  }

  /**
   An event naming both paths is one rename from the first to the second. A lone first
   half is stored; a lone second half completes the pending one, or is a change of its
   path; any other single name deletes the pending half, and its own path if the mode is
   `Any`. Changes and deletions are reported path by path, in order. Nothing else is sent.
   */
  lemma DispatchSends(s: State, raw: RawEvent, checkedAt: int, now: int)
    ensures var s' := Dispatch(s, raw, checkedAt, now);
            var orphan := if s.pending.Some? then [Deleted(s.pending.value.path)] else [];
            && s.sent <= s'.sent
            && (raw.Name? && |raw.paths| == 2 ==>
                  Added(s, s') == [Renamed(raw.paths[0], raw.paths[1])] && s'.pending == s.pending)
            && (raw.Name? && |raw.paths| == 1 && raw.mode.From? ==>
                  && Added(s, s') == []
                  && s'.pending.Some? && s'.pending.value.path == raw.paths[0] && s'.pending.value.storedAt == now)
            && (raw.Name? && |raw.paths| == 1 && raw.mode.To? ==>
                  && s'.pending.None?
                  && Added(s, s') == [if s.pending.Some? then Renamed(s.pending.value.path, raw.paths[0])
                                      else Modified(raw.paths[0])])
            && (raw.Name? && |raw.paths| == 1 && raw.mode.AnyMode? ==>
                  s'.pending.None? && Added(s, s') == orphan + [Deleted(raw.paths[0])])
            && (raw.Name? && |raw.paths| == 1 && raw.mode.OtherMode? ==>
                  s'.pending.None? && Added(s, s') == orphan)
            && (raw.Name? && |raw.paths| != 1 && |raw.paths| != 2 ==> s' == s)
            && (raw.ModifyOrCreate? || raw.Remove? ==>
                  && s'.pending == s.pending && |Added(s, s')| == |raw.paths|
                  && forall k | 0 <= k < |raw.paths| ::
                       Added(s, s')[k] == if raw.Remove? then Deleted(raw.paths[k]) else Modified(raw.paths[k]))
            && (raw.Ignored? ==> s' == s)
  {
    if raw.ModifyOrCreate? { SendAllSends(s, raw.paths, false); }
    if raw.Remove? { SendAllSends(s, raw.paths, true); }
  }

  /** The expiry check reports exactly a half that has waited half a second, as deleted. */
  lemma ExpireSends(s: State, now: int)
    ensures var s', stale := Expire(s, now), s.pending.Some? && now >= s.pending.value.storedAt + 500;
            && s.sent <= s'.sent
            && Added(s, s') == (if stale then [Deleted(s.pending.value.path)] else [])
            && s'.pending == (if stale then None else s.pending)
  {}

  /** The sections follow one another: a second event waits for the first, a flush for nothing. */
  lemma SectionsAlternate(s: State, raw: RawEvent, now: int)
    ensures Next(s, Begin(raw, now)).Some? <==> s.handling.None?
    ensures Next(s, Finish(now)).Some? <==> s.handling.Some?
    ensures s.handling.None? ==> Next(s, Begin(raw, now)).value.handling == Some(Handling(raw, now))
    ensures s.handling.Some? ==> Next(s, Finish(now)).value.handling == None
    ensures Next(s, Flush(now)).Some? && Next(s, Flush(now)).value.handling == s.handling
  {
    if s.handling.Some? {
      DispatchIdle(s.(handling := None), s.handling.value.raw, s.handling.value.checkedAt, now);
    }
  }

  /******* The balance *******/

  datatype FateKind = ByPairing | ByExpiry | ByFlush | ByLaterFrom

  function KindOf(fate: Fate): FateKind {
    match fate
    case Paired(_, _) => ByPairing
    case Expired(_) => ByExpiry
    case Flushed => ByFlush
    case Overwritten => ByLaterFrom
  }

  /** How many of the first `n` stored halves met a kind of fate. */
  function Count(fates: map<nat, Fate>, n: nat, kind: FateKind): nat {
    if n == 0 then 0 else Count(fates, n - 1, kind) + if n - 1 in fates && KindOf(fates[n - 1]) == kind then 1 else 0
  }

  lemma {:induction false} CountAll(fates: map<nat, Fate>, n: nat)
    requires forall k: nat | k < n :: k in fates
    ensures Count(fates, n, ByPairing) + Count(fates, n, ByExpiry) + Count(fates, n, ByFlush)
            + Count(fates, n, ByLaterFrom) == n
  {
    if n > 0 { CountAll(fates, n - 1); }
  }

  /** Stored halves balance: paired, expired or flushed, overwritten by a later one, or still pending. */
  lemma StoredBalance(trace: seq<Step>)
    requires Run(trace).Some?
    ensures var s := Run(trace).value;
            var waiting := if s.pending.Some? then 1 else 0;
            && waiting <= |s.stored|
            && |s.stored|
               == Count(s.fates, |s.stored| - waiting, ByPairing) + Count(s.fates, |s.stored| - waiting, ByExpiry)
                             + Count(s.fates, |s.stored| - waiting, ByFlush)
                             + Count(s.fates, |s.stored| - waiting, ByLaterFrom) + waiting
  {
    hide Run;
    RunInv(trace);
    var s := Run(trace).value;
    CountAll(s.fates, |s.stored| - if s.pending.Some? then 1 else 0);
  }

  /** The watcher's own methods. */
  class FileWatcher {
    var pendingRenameFrom: Option<(Path, int)>
    var sent: seq<WatchEvent>

    constructor ()
      ensures Matches(Init)
    {
      pendingRenameFrom, sent := None, [];
    }

    ghost predicate Matches(s: State)
      reads this
    {
      && pendingRenameFrom == (if s.pending.Some? then Some((s.pending.value.path, s.pending.value.storedAt)) else None)
      && |sent| == |s.sent| && forall i | 0 <= i < |sent| :: sent[i] == s.sent[i].event
    }

    /** Emits a half that waited too long as a deletion. */
    method ExpirePendingRenameFrom(now: int, ghost s: State)
      requires Matches(s)
      modifies this
      ensures Matches(Expire(s, now))
    {
      if pendingRenameFrom.Some? && now - pendingRenameFrom.value.1 >= PENDING_RENAME_TIMEOUT {
        var path := pendingRenameFrom.value.0;
        pendingRenameFrom := None;
        sent := sent + [Deleted(path)];
      }
    }

    method HandleSingle(mode: RenameMode, path: Path, now: int, ghost checkedAt: int, ghost s: State)
      requires Matches(s)
      modifies this
      ensures Matches(OnSingle(s, mode, path, checkedAt, now))
    {
      if mode.From? {
        pendingRenameFrom := Some((path, now));
      } else if mode.To? {
        var from := pendingRenameFrom;
        pendingRenameFrom := None;
        sent := sent + [if from.Some? then Renamed(from.value.0, path) else Modified(path)];
      } else {
        if pendingRenameFrom.Some? {
          var stale := pendingRenameFrom.value.0;
          pendingRenameFrom := None;
          sent := sent + [Deleted(stale)];
        }
        if mode.AnyMode? { sent := sent + [Deleted(path)]; }
      }
    }

    method SendPaths(paths: seq<Path>, deleted: bool, ghost s: State)
      requires Matches(s)
      modifies `sent
      ensures Matches(SendAll(s, paths, deleted))
    {
      for i := 0 to |paths|
        invariant Matches(SendAll(s, paths[..i], deleted))
      {
        assert paths[..i + 1][..i] == paths[..i];
        sent := sent + [if deleted then Deleted(paths[i]) else Modified(paths[i])];
      }
      assert paths[..|paths|] == paths;
    }

    /** The second section: it finds the pending half as the check, or a flush since, left it. */
    method DispatchEvent(raw: RawEvent, now: int, ghost checkedAt: int, ghost s: State)
      requires Matches(s)
      modifies this
      ensures Matches(Dispatch(s, raw, checkedAt, now))
    {
      hide OnSingle, SendAll;
      match raw
      case Name(mode, paths) =>
        if |paths| == 2 {
          sent := sent + [Renamed(paths[0], paths[1])];
        } else if |paths| == 1 {
          HandleSingle(mode, paths[0], now, checkedAt, s);
        }
      case ModifyOrCreate(paths) => SendPaths(paths, false, s);
      case Remove(paths) => SendPaths(paths, true, s);
      case Ignored =>
    }

    /** Both sections, undisturbed. */
    method HandleNotifyEvent(raw: RawEvent, checkedAt: int, now: int, ghost s: State)
      requires Matches(s) && s.handling.None?
      modifies this
      ensures Next(s, Begin(raw, checkedAt)).Some? && Next(Next(s, Begin(raw, checkedAt)).value, Finish(now)).Some?
      ensures Matches(Next(Next(s, Begin(raw, checkedAt)).value, Finish(now)).value)
    {
      hide Dispatch;
      ExpirePendingRenameFrom(checkedAt, s);
      DispatchEvent(raw, now, checkedAt, Next(s, Begin(raw, checkedAt)).value.(handling := None));
    }
  }
}
