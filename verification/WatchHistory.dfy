/** When a watch event is taken, in terms of what happened to its path and not of the bookkeeping. */
module WatchHistory {
  import opened WatchDebounce

  /** The state after the first `k` events of a run. */
  function At(now: int, events: seq<Event>, k: nat): State
    requires k <= |events| && Run(Init(now), events[..k]).Some?
  {
    Run(Init(now), events[..k]).value
  }

  /** The event made the list of accepted events longer. */
  predicate Taken(now: int, events: seq<Event>, j: nat) {
    && j < |events| && events[j].Watch?
    && Run(Init(now), events[..j]).Some? && Run(Init(now), events[..j + 1]).Some?
    && |At(now, events, j + 1).accepted| > |At(now, events, j).accepted|
  }

  /** An accepted event of the path, an accepted deletion of it, or a finished save to it. */
  predicate Active(now: int, events: seq<Event>, j: nat, path: Path) {
    && j < |events|
    && ((events[j].Touch? && events[j].path == path) || (events[j].SaveEnds? && events[j].path == path)
        || (Taken(now, events, j) && events[j].path == path))
  }

  predicate Forgets(e: Event, path: Path) {
    e.Clear? || (e.Prune? && e.path == path)
  }

  /** Active, and the path was not forgotten since. */
  predicate Recent(now: int, events: seq<Event>, j: nat, path: Path) {
    Active(now, events, j, path) && forall k | j < k < |events| :: !Forgets(events[k], path)
  }

  /** A save to the path began and neither ended nor failed since. */
  predicate Running(events: seq<Event>, j: nat, path: Path) {
    && j < |events| && events[j].SaveStarts? && events[j].path == path
    && forall k | j < k < |events| ::
         !((events[k].SaveEnds? || events[k].SaveFails?) && events[k].tab == events[j].tab)
  }

  predicate Timed(e: Event) {
    e.Touch? || e.SaveEnds? || e.Watch?
  }

  function Time(e: Event): (t: int)
    requires Timed(e)
  {
    e.now
  }

  lemma TakenFront(now: int, events: seq<Event>, j: nat)
    requires j < |events| - 1
    ensures Taken(now, events, j) == Taken(now, events[..|events| - 1], j)
  {
    var front := events[..|events| - 1];
    assert front[..j] == events[..j] && front[..j + 1] == events[..j + 1];
  }

  lemma RecentFront(now: int, events: seq<Event>, j: nat, path: Path)
    requires j < |events| - 1
    ensures Recent(now, events, j, path)
            == (Recent(now, events[..|events| - 1], j, path) && !Forgets(events[|events| - 1], path))
  {
    hide Taken, Forgets;
    TakenFront(now, events, j);
    var front, e := events[..|events| - 1], events[|events| - 1];
    if Recent(now, front, j, path) && !Forgets(e, path) {
      forall k | j < k < |events| ensures !Forgets(events[k], path) {
        if k < |front| { assert !Forgets(front[k], path); }
      }
    }
    if Recent(now, events, j, path) {
      forall k | j < k < |front| ensures !Forgets(front[k], path) { assert !Forgets(events[k], path); }
    }
  }

  lemma RunningFront(events: seq<Event>, j: nat, path: Path)
    requires j < |events| - 1
    ensures var e := events[|events| - 1];
            Running(events, j, path) == (Running(events[..|events| - 1], j, path)
                                         && !((e.SaveEnds? || e.SaveFails?) && e.tab == events[j].tab))
  {
    var front := events[..|events| - 1];
    forall k | j < k < |front| ensures front[k] == events[k] {}
    if Running(front, j, path) {
      forall k | j < k < |front|
        ensures !((events[k].SaveEnds? || events[k].SaveFails?) && events[k].tab == events[j].tab)
      {
        assert front[k] == events[k];
      }
    }
  }

  /** The bookkeeping of a path is the latest of its recent events, whichever map holds it. */
  ghost predicate Kept(now: int, events: seq<Event>, path: Path) {
    && Run(Init(now), events).Some?
    && var s := Run(Init(now), events).value;
    && (forall j: nat | Recent(now, events, j, path) ::
         Time(events[j]) <= s.now && Remembered(s, path, Time(events[j])))
    && (path in s.lastEvents ==> exists j: nat :: Recent(now, events, j, path) && Time(events[j]) == s.lastEvents[path])
    && (path in s.lastSaves ==> exists j: nat :: Recent(now, events, j, path) && Time(events[j]) == s.lastSaves[path])
  }

  /** The last event of a run is active for the path. */
  predicate Acts(s: State, e: Event, path: Path) {
    && !e.SaveStarts? && !e.SaveFails? && !e.Prune? && !e.Clear?
    && e.path == path && (e.Watch? ==> !Suppressed(s, path, e.now))
  }

  /** What a step makes of the entries of a path: they are kept, forgotten, or set to now. */
  ghost predicate Books(s: State, e: Event, path: Path, s': State) {
    && s.now <= s'.now
    && (Acts(s, e, path) ==> Time(e) == s'.now && Remembered(s', path, Time(e)))
    && (forall t | !Forgets(e, path) && Remembered(s, path, t) :: Remembered(s', path, t))
    && (path in s'.lastEvents ==>
          || (!Forgets(e, path) && path in s.lastEvents && s.lastEvents[path] == s'.lastEvents[path])
          || (Acts(s, e, path) && s'.lastEvents[path] == Time(e)))
    && (path in s'.lastSaves ==>
          || (!Forgets(e, path) && path in s.lastSaves && s.lastSaves[path] == s'.lastSaves[path])
          || (Acts(s, e, path) && s'.lastSaves[path] == Time(e)))
  }

  lemma WatchBooks(s: State, e: Event, path: Path)
    requires e.Watch? && Step(s, e).Some? && Inv(s)
    ensures Books(s, e, path, Step(s, e).value)
  {
    hide Saving, Spaced;
  }

  lemma TouchBooks(s: State, e: Event, path: Path)
    requires e.Touch? && Step(s, e).Some? && Inv(s)
    ensures Books(s, e, path, Step(s, e).value)
  {
    hide Suppressed, Spaced;
  }

  lemma SaveBooks(s: State, e: Event, path: Path)
    requires e.SaveEnds? && Step(s, e).Some? && Inv(s)
    ensures Books(s, e, path, Step(s, e).value)
  {
    hide Suppressed, Spaced;
  }

  lemma OtherBooks(s: State, e: Event, path: Path)
    requires !e.Watch? && !e.Touch? && !e.SaveEnds? && Step(s, e).Some?
    ensures Books(s, e, path, Step(s, e).value)
  {
    hide Suppressed;
  }

  lemma BooksStep(s: State, e: Event, path: Path)
    requires Step(s, e).Some? && Inv(s)
    ensures Books(s, e, path, Step(s, e).value)
  {
    hide Books, Step, Inv;
    if e.Watch? {
      WatchBooks(s, e, path);
    } else if e.Touch? {
      TouchBooks(s, e, path);
    } else if e.SaveEnds? {
      SaveBooks(s, e, path);
    } else {
      OtherBooks(s, e, path);
    }
  }

  lemma LastActive(now: int, events: seq<Event>, path: Path)
    requires |events| > 0 && Run(Init(now), events).Some?
    ensures var front := events[..|events| - 1];
            && Run(Init(now), front).Some?
            && Step(Run(Init(now), front).value, events[|events| - 1]) == Run(Init(now), events)
            && Recent(now, events, |events| - 1, path)
               == Acts(Run(Init(now), front).value, events[|events| - 1], path)
  {
    hide Suppressed;
    var n := |events| - 1;
    assert events[..n + 1] == events;
  }

  lemma RememberedStep(now: int, events: seq<Event>, path: Path, j: nat)
    requires |events| > 0 && Run(Init(now), events).Some? && Kept(now, events[..|events| - 1], path)
    requires Inv(Run(Init(now), events[..|events| - 1]).value)
    requires Recent(now, events, j, path)
    ensures var s := Run(Init(now), events).value;
            Time(events[j]) <= s.now && Remembered(s, path, Time(events[j]))
  {
    hide Acts, Forgets, Step, Run, Remembered, Inv, Running, Taken;
    RecentIndex(now, events, j, path);
    var n, front, e := |events| - 1, events[..|events| - 1], events[|events| - 1];
    LastActive(now, events, path);
    BooksStep(Run(Init(now), front).value, e, path);
    if j < n {
      RecentFront(now, events, j, path);
      assert Recent(now, front, j, path) && front[j] == events[j];
    }
  }

  lemma {:induction false} KeptStep(now: int, events: seq<Event>, path: Path)
    requires |events| > 0 && Run(Init(now), events).Some? && Kept(now, events[..|events| - 1], path)
    requires Inv(Run(Init(now), events[..|events| - 1]).value)
    ensures Kept(now, events, path)
  {
    hide Acts, Forgets, Run, Step, Remembered, Inv, Recent, Active, Taken;
    var n, front, e := |events| - 1, events[..|events| - 1], events[|events| - 1];
    var s, s' := Run(Init(now), front).value, Run(Init(now), events).value;
    LastActive(now, events, path);
    BooksStep(s, e, path);
    forall j: nat | Recent(now, events, j, path)
      ensures j < |events| && Timed(events[j]) && Time(events[j]) <= s'.now && Remembered(s', path, Time(events[j]))
    {
      RecentIndex(now, events, j, path);
      RememberedStep(now, events, path, j);
    }
    if path in s'.lastEvents {
      if Acts(s, e, path) && s'.lastEvents[path] == Time(e) { assert Recent(now, events, n, path); }
      else { FrontTimes(now, events, path, s.lastEvents[path]); }
    }
    if path in s'.lastSaves {
      if Acts(s, e, path) && s'.lastSaves[path] == Time(e) { assert Recent(now, events, n, path); }
      else { FrontTimes(now, events, path, s.lastSaves[path]); }
    }
  }

  lemma FrontTimes(now: int, events: seq<Event>, path: Path, time: int)
    requires |events| > 0 && !Forgets(events[|events| - 1], path)
    requires var front := events[..|events| - 1];
             exists j: nat :: Recent(now, front, j, path) && Time(front[j]) == time
    ensures exists j: nat :: Recent(now, events, j, path) && Time(events[j]) == time
  {
    var front := events[..|events| - 1];
    var j: nat :| Recent(now, front, j, path) && Time(front[j]) == time;
    assert front[j] == events[j];
    RecentFront(now, events, j, path);
    assert Recent(now, events, j, path);
  }

  lemma RecentIndex(now: int, events: seq<Event>, j: nat, path: Path)
    requires Recent(now, events, j, path)
    ensures j < |events| && Timed(events[j])
  {}

  lemma {:induction false} AlwaysKept(now: int, events: seq<Event>, path: Path)
    requires Run(Init(now), events).Some?
    ensures Kept(now, events, path)
  {
    if |events| > 0 {
      hide Recent, Inv, Kept;
      var front := events[..|events| - 1];
      AlwaysKept(now, front, path);
      InitInv(now);
      RunInv(Init(now), front);
      KeptStep(now, events, path);
    }
  }

  /** The running saves are those begun and neither ended nor failed. */
  lemma {:induction false} SavingIs(now: int, events: seq<Event>, path: Path)
    requires Run(Init(now), events).Some?
    ensures Saving(Run(Init(now), events).value.inflight, path) == exists j: nat :: Running(events, j, path)
  {
    forall tab ensures InflightIs(now, events, tab, path) { InflightRun(now, events, tab, path); }
    var inflight := Run(Init(now), events).value.inflight;
    if Saving(inflight, path) {
      var tab :| tab in inflight && inflight[tab] == path;
      assert InflightIs(now, events, tab, path);
    }
    if j: nat :| Running(events, j, path) {
      assert InflightIs(now, events, events[j].tab, path);
    }
  }

  ghost predicate InflightIs(now: int, events: seq<Event>, tab: nat, path: Path) {
    && Run(Init(now), events).Some?
    && var inflight := Run(Init(now), events).value.inflight;
    && ((tab in inflight && inflight[tab] == path) <==>
        exists j: nat :: Running(events, j, path) && events[j].tab == tab)
  }

  lemma InflightStep(s: State, e: Event, tab: nat, path: Path)
    requires Step(s, e).Some?
    ensures var s' := Step(s, e).value;
            (tab in s'.inflight && s'.inflight[tab] == path)
            <==> || e == SaveStarts(tab, path)
                 || (tab in s.inflight && s.inflight[tab] == path
                     && !((e.SaveEnds? || e.SaveFails?) && e.tab == tab))
  {
    hide Suppressed;
  }

  lemma {:induction false} InflightRun(now: int, events: seq<Event>, tab: nat, path: Path)
    requires Run(Init(now), events).Some?
    ensures InflightIs(now, events, tab, path)
  {
    if |events| > 0 {
      var n, front := |events| - 1, events[..|events| - 1];
      InflightRun(now, front, tab, path);
      InflightStep(Run(Init(now), front).value, events[n], tab, path);
      hide Step;
      forall j: nat | j < n ensures
        Running(events, j, path) == (Running(front, j, path)
                                     && !((events[n].SaveEnds? || events[n].SaveFails?)
                                          && events[n].tab == events[j].tab))
      {
        RunningFront(events, j, path);
      }
      if events[n] == SaveStarts(tab, path) {
        assert Running(events, n, path);
      } else {
        forall j: nat | Running(events, j, path) && events[j].tab == tab ensures j < n {}
        if j: nat :| Running(front, j, path) && front[j].tab == tab { assert front[j] == events[j]; }
        if j: nat :| Running(events, j, path) && events[j].tab == tab { assert front[j] == events[j]; }
      }
    }
  }

  lemma TakenMeans(now: int, events: seq<Event>, path: Path, time: int)
    requires Run(Init(now), events).Some? && Run(Init(now), events + [Watch(path, time)]).Some?
    ensures Taken(now, events + [Watch(path, time)], |events|)
            == !Suppressed(Run(Init(now), events).value, path, time)
  {
    var all := events + [Watch(path, time)];
    assert all[..|events|] == events && all[..|events| + 1] == all;
    hide Suppressed;
  }

  /** The bookkeeping holds an event back exactly when some recent event lies within the period. */
  lemma WithinMeans(now: int, events: seq<Event>, path: Path, time: int)
    requires Kept(now, events, path)
    ensures var s := Run(Init(now), events).value;
            (Within(s.lastEvents, path, time) || Within(s.lastSaves, path, time))
            <==> !forall j: nat | Recent(now, events, j, path) ::
                    j < |events| && Timed(events[j]) && Time(events[j]) + 500 <= time
  {
    hide Run;
    forall j: nat | Recent(now, events, j, path) ensures j < |events| && Timed(events[j]) {
      RecentIndex(now, events, j, path);
    }
    hide Recent;
  }

  /**
   A change reported at any moment of any run is taken exactly when no save to its path
   is under way and a debounce period has passed since every earlier change taken,
   deletion taken and save finished for it, unless the path was forgotten in between.
   */
  lemma AcceptedExactly(now: int, events: seq<Event>, path: Path, time: int)
    requires Run(Init(now), events).Some? && Run(Init(now), events + [Watch(path, time)]).Some?
    ensures Taken(now, events + [Watch(path, time)], |events|)
            <==> && (forall j: nat :: !Running(events, j, path))
                 && (forall j: nat | Recent(now, events, j, path) ::
                       j < |events| && Timed(events[j]) && Time(events[j]) + 500 <= time)
  {
    TakenMeans(now, events, path, time);
    AlwaysKept(now, events, path);
    SavingIs(now, events, path);
    WithinMeans(now, events, path, time);
    hide Saving, Running, Taken, Run, Recent, Within, Kept;
  }
}
