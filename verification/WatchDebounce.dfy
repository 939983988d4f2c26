/** Which watch events are taken for echoes or duplicates. Times are milliseconds and never go back. */
module WatchDebounce {
  import opened Common

  const FILE_WATCH_DEBOUNCE: int := 500

  type Path = string

  /**
   An accepted event, with the last accepted event and the last recorded save of its
   path since the path was last forgotten, and whether a save of it was in flight.
   */
  datatype Accepted = Accepted(path: Path, at: int, previous: Option<int>, save: Option<int>, saving: bool)

  datatype State = State(
    now: int,
    lastEvents: map<Path, int>,
    lastSaves: map<Path, int>,
    inflight: map<nat, Path>,
    accepts: map<Path, int>,
    saves: map<Path, int>,
    accepted: seq<Accepted>)

  datatype Event =
    | Watch(path: Path, now: int)
    | Touch(path: Path, now: int)
    | SaveStarts(tab: nat, path: Path)
    | SaveEnds(tab: nat, path: Path, now: int, rewatched: bool)
    | SaveFails(tab: nat)
    | Prune(path: Path)
    | Clear

  function Init(now: int): State {
    State(now, map[], map[], map[], map[], map[], [])
  }

  function Within(times: map<Path, int>, path: Path, now: int): bool {
    path in times && now - times[path] < FILE_WATCH_DEBOUNCE
  }

  predicate Saving(inflight: map<nat, Path>, path: Path) {
    exists tab | tab in inflight :: inflight[tab] == path
  }

  predicate Suppressed(s: State, path: Path, now: int) {
    Within(s.lastEvents, path, now) || Within(s.lastSaves, path, now) || Saving(s.inflight, path)
  }

  function Last(times: map<Path, int>, path: Path): Option<int> {
    if path in times then Some(times[path]) else None
  }

  /** `accepts` and `saves` are what really happened to a path until it is pruned. */
  function Step(s: State, e: Event): Option<State> {
    match e
    case Watch(path, now) =>
      if now < s.now then None
      else if Suppressed(s, path, now) then Some(s.(now := now))
      else
        Some(s.(now := now, lastEvents := s.lastEvents[path := now], accepts := s.accepts[path := now],
                accepted := s.accepted + [Accepted(path, now, Last(s.accepts, path), Last(s.saves, path),
                                                   Saving(s.inflight, path))]))
    // An accepted deletion of a path that still exists: the file is watched anew.
    case Touch(path, now) =>
      if now < s.now || path !in s.lastEvents || path !in s.accepts then None
      else Some(s.(now := now, lastEvents := s.lastEvents[path := now], lastSaves := s.lastSaves - {path}))
    case SaveStarts(tab, path) => if tab in s.inflight then None else Some(s.(inflight := s.inflight[tab := path]))
    case SaveEnds(tab, path, now, rewatched) =>
      if now < s.now then None
      else
        Some(s.(now := now, inflight := s.inflight - {tab},
                lastEvents := if rewatched then s.lastEvents - {path} else s.lastEvents,
                lastSaves := s.lastSaves[path := now], saves := s.saves[path := now]))
    case SaveFails(tab) => Some(s.(inflight := s.inflight - {tab}))
    case Prune(path) =>
      Some(s.(lastEvents := s.lastEvents - {path}, lastSaves := s.lastSaves - {path},
              accepts := s.accepts - {path}, saves := s.saves - {path}))
    case Clear => Some(s.(lastEvents := map[], lastSaves := map[], accepts := map[], saves := map[]))
  }

  function Run(s: State, events: seq<Event>): Option<State> {
    if |events| == 0 then Some(s)
    else
      var front := Run(s, events[..|events| - 1]);
      if front.None? then None else Step(front.value, events[|events| - 1])
  }

  /** Some bookkeeping entry of the path is at least as late as `time`. */
  ghost predicate Remembered(s: State, path: Path, time: int) {
    (path in s.lastEvents && s.lastEvents[path] >= time) || (path in s.lastSaves && s.lastSaves[path] >= time)
  }

  ghost predicate Spaced(a: Accepted) {
    && (a.previous.Some? ==> a.at - a.previous.value >= 500)
    && (a.save.Some? ==> a.at - a.save.value >= 500)
    && !a.saving
  }

  ghost predicate Inv(s: State) {
    && (forall path | path in s.accepts :: Remembered(s, path, s.accepts[path]))
    && (forall path | path in s.saves :: Remembered(s, path, s.saves[path]))
    && (forall path | path in s.lastEvents :: s.lastEvents[path] <= s.now)
    && (forall path | path in s.lastSaves :: s.lastSaves[path] <= s.now)
    && forall i | 0 <= i < |s.accepted| :: Spaced(s.accepted[i])
  }

  /** A later event of one path keeps everything remembered. */
  lemma RememberedMore(s: State, s': State, path: Path, now: int, p: Path, time: int)
    requires s'.lastEvents == s.lastEvents[path := now] && s'.lastSaves == s.lastSaves
    requires path in s.lastEvents ==> s.lastEvents[path] <= now
    ensures Remembered(s, p, time) ==> Remembered(s', p, time)
  {}

  lemma AcceptSpaced(s: State, path: Path, now: int)
    requires Inv(s) && s.now <= now && !Suppressed(s, path, now)
    ensures Spaced(Accepted(path, now, Last(s.accepts, path), Last(s.saves, path), Saving(s.inflight, path)))
  {
    hide Saving;
    if path in s.accepts { assert Remembered(s, path, s.accepts[path]); }
    if path in s.saves { assert Remembered(s, path, s.saves[path]); }
  }

  lemma WatchInv(s: State, path: Path, now: int)
    requires Inv(s) && Step(s, Watch(path, now)).Some?
    ensures Inv(Step(s, Watch(path, now)).value)
  {
    var s' := Step(s, Watch(path, now)).value;
    if !Suppressed(s, path, now) {
      AcceptSpaced(s, path, now);
      hide Saving, Suppressed, Spaced;
      assert Remembered(s', path, now);
      hide Remembered;
      forall p | p in s'.accepts && p != path ensures Remembered(s', p, s'.accepts[p]) {
        RememberedMore(s, s', path, now, p, s.accepts[p]);
      }
      forall p | p in s'.saves ensures Remembered(s', p, s'.saves[p]) {
        RememberedMore(s, s', path, now, p, s.saves[p]);
      }
    } else {
      hide Spaced;
      SameBooks(s, s');
    }
  }

  lemma SameBooks(s: State, s': State)
    requires Inv(s) && s' == s.(now := s'.now) && s.now <= s'.now
    ensures Inv(s')
  {
    forall p | p in s.accepts ensures Remembered(s', p, s.accepts[p]) { assert Remembered(s, p, s.accepts[p]); }
    forall p | p in s.saves ensures Remembered(s', p, s.saves[p]) { assert Remembered(s, p, s.saves[p]); }
  }

  lemma SaveInv(s: State, tab: nat, path: Path, now: int, rewatched: bool)
    requires Inv(s) && Step(s, SaveEnds(tab, path, now, rewatched)).Some?
    ensures Inv(Step(s, SaveEnds(tab, path, now, rewatched)).value)
  {
    hide Saving, Spaced;
    var s' := Step(s, SaveEnds(tab, path, now, rewatched)).value;
    forall p | p in s'.accepts ensures Remembered(s', p, s'.accepts[p]) { assert Remembered(s, p, s.accepts[p]); }
    forall p | p in s'.saves && p != path
      ensures Remembered(s', p, s'.saves[p])
    {
      assert Remembered(s, p, s.saves[p]);
    }
  }

  lemma TouchInv(s: State, path: Path, now: int)
    requires Inv(s) && Step(s, Touch(path, now)).Some?
    ensures Inv(Step(s, Touch(path, now)).value)
  {
    hide Saving, Spaced;
    var s' := Step(s, Touch(path, now)).value;
    forall p | p in s'.accepts ensures Remembered(s', p, s'.accepts[p]) { assert Remembered(s, p, s.accepts[p]); }
    forall p | p in s'.saves ensures Remembered(s', p, s'.saves[p]) { assert Remembered(s, p, s.saves[p]); }
  }

  lemma ForgetInv(s: State, e: Event)
    requires Inv(s) && (e.SaveStarts? || e.SaveFails? || e.Prune? || e.Clear?) && Step(s, e).Some?
    ensures Inv(Step(s, e).value)
  {
    hide Saving, Spaced;
    var s' := Step(s, e).value;
    forall p | p in s'.accepts ensures Remembered(s', p, s'.accepts[p]) { assert Remembered(s, p, s.accepts[p]); }
    forall p | p in s'.saves ensures Remembered(s', p, s'.saves[p]) { assert Remembered(s, p, s.saves[p]); }
  }

  lemma {:induction false} RunInv(s: State, events: seq<Event>)
    requires Inv(s) && Run(s, events).Some?
    ensures Inv(Run(s, events).value)
  {
    hide Inv, Step;
    if |events| > 0 {
      var front, e := events[..|events| - 1], events[|events| - 1];
      RunInv(s, front);
      if e.Watch? {
        WatchInv(Run(s, front).value, e.path, e.now);
      } else if e.Touch? {
        TouchInv(Run(s, front).value, e.path, e.now);
      } else if e.SaveEnds? {
        SaveInv(Run(s, front).value, e.tab, e.path, e.now, e.rewatched);
      } else {
        ForgetInv(Run(s, front).value, e);
      }
    }
  }

  /**
   Accepted events of a path that was not forgotten in between lie a debounce period
   apart, and a debounce period behind each recorded save, never during one.
   */
  lemma AcceptedAreSpaced(now: int, events: seq<Event>, i: nat)
    requires Run(Init(now), events).Some? && i < |Run(Init(now), events).value.accepted|
    ensures var a := Run(Init(now), events).value.accepted[i];
            && (a.previous.Some? ==> a.at - a.previous.value >= 500)
            && (a.save.Some? ==> a.at - a.save.value >= 500)
            && !a.saving
  {
    hide Run;
    assert Inv(Init(now)) by { InitInv(now); }
    RunInv(Init(now), events);
    assert Spaced(Run(Init(now), events).value.accepted[i]);
  }

  lemma InitInv(now: int)
    ensures Inv(Init(now))
  {}

  /** Events come in the order of the clock, which may stand still, and each needs no more than what it speaks of. */
  lemma PossibleExactly(s: State, e: Event)
    ensures Step(s, e).Some? <==>
            && (e.Watch? || e.Touch? || e.SaveEnds? ==> e.now >= s.now)
            && (e.Touch? ==> e.path in s.lastEvents && e.path in s.accepts)
            && (e.SaveStarts? ==> e.tab !in s.inflight)
  {}

  /** An accepted deletion of a file still there counts as its last event, and its last save is forgotten. */
  lemma TouchMeans(s: State, path: Path, now: int)
    requires Step(s, Touch(path, now)).Some?
    ensures var s' := Step(s, Touch(path, now)).value;
            && path in s'.lastEvents && s'.lastEvents[path] == now && path !in s'.lastSaves
            && s'.inflight == s.inflight && s'.accepted == s.accepted
            && forall p | p != path ::
                 && (p in s'.lastEvents <==> p in s.lastEvents) && (p in s'.lastSaves <==> p in s.lastSaves)
                 && (p in s.lastEvents ==> s'.lastEvents[p] == s.lastEvents[p])
                 && (p in s.lastSaves ==> s'.lastSaves[p] == s.lastSaves[p])
  {}

  /** A finished save is recorded; the last event is forgotten only when the file is watched anew. */
  lemma SaveEndsMeans(s: State, tab: nat, path: Path, now: int, rewatched: bool)
    requires Step(s, SaveEnds(tab, path, now, rewatched)).Some?
    ensures var s' := Step(s, SaveEnds(tab, path, now, rewatched)).value;
            && path in s'.lastSaves && s'.lastSaves[path] == now && tab !in s'.inflight
            && path in s'.saves && s'.saves[path] == now
            && (path in s'.lastEvents <==> path in s.lastEvents && !rewatched)
            && forall p | p != path ::
                 && (p in s'.lastEvents <==> p in s.lastEvents) && (p in s'.lastSaves <==> p in s.lastSaves)
                 && (p in s.lastEvents ==> s'.lastEvents[p] == s.lastEvents[p])
                 && (p in s.lastSaves ==> s'.lastSaves[p] == s.lastSaves[p])
  {}

  /** The bookkeeping maps as the window updates them. */
  class FileWatchState {
    var lastFileEvents: map<Path, int>
    var lastFileSaves: map<Path, int>
    var pendingConflicts: map<Path, nat>
    var inflightSaves: map<nat, Path>

    constructor (now: int)
      ensures Matches(Init(now)) && pendingConflicts == map[]
    {
      lastFileEvents, lastFileSaves, pendingConflicts, inflightSaves := map[], map[], map[], map[];
    }

    ghost predicate Matches(s: State)
      reads this
    {
      s.lastEvents == lastFileEvents && s.lastSaves == lastFileSaves && s.inflight == inflightSaves
    }

    /** Whether some running save writes to the path. */
    method AnyInflight(path: Path) returns (found: bool)
      ensures found == Saving(inflightSaves, path)
    {
      var todo := inflightSaves.Keys;
      while todo != {}
        invariant todo <= inflightSaves.Keys
        invariant forall tab | tab in inflightSaves && tab !in todo :: inflightSaves[tab] != path
        decreases |todo|
      {
        Inhabited(todo);
        var tab :| tab in todo;
        if inflightSaves[tab] == path { return true; }
        todo := todo - {tab};
      }
      return false;
    }

    method ShouldSuppressFileWatchEvent(path: Path, now: int, ghost s: State) returns (suppress: bool)
      requires Matches(s) && s.now <= now
      modifies `lastFileEvents
      ensures suppress == Suppressed(s, path, now) && Matches(Step(s, Watch(path, now)).value)
    {
      if path in lastFileEvents && now - lastFileEvents[path] < FILE_WATCH_DEBOUNCE { return true; }
      if path in lastFileSaves && now - lastFileSaves[path] < FILE_WATCH_DEBOUNCE { return true; }
      var inflight := AnyInflight(path);
      if inflight { return true; }
      lastFileEvents := lastFileEvents[path := now];
      return false;
    }

    method PruneForPath(path: Path, ghost s: State)
      requires Matches(s)
      modifies this
      ensures Matches(Step(s, Prune(path)).value) && pendingConflicts == old(pendingConflicts) - {path}
    {
      lastFileEvents, lastFileSaves := lastFileEvents - {path}, lastFileSaves - {path};
      pendingConflicts := pendingConflicts - {path};
    }

    method ClearAll(ghost s: State)
      requires Matches(s)
      modifies this
      ensures Matches(Step(s, Clear).value) && pendingConflicts == map[]
    {
      lastFileEvents, lastFileSaves, pendingConflicts := map[], map[], map[];
    }
  }
}
