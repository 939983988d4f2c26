/** The states the handle's loops pass through, and what one iteration adds. */
module LoopFacts {
  import opened Common
  import opened SessionModel
  import opened StateRows
  import opened RowFacts

  /** The comparable part of every readable tab row, as `read_stored_tabs` returns it. */
  type StoredTabs = map<int, (StoredTab, Option<Fingerprint>)>

  ghost predicate Mirrors(stored: StoredTabs, rows: map<int, TabRow>) {
    && stored.Keys == (set id | id in rows && 0 <= id)
    && forall id | id in stored :: stored[id] == (rows[id].stored, StoredFingerprint(rows[id]))
  }

  /******* Visiting the tabs of a window *******/

  /** Tables, counts and remaining stored tabs once `n` tabs have been visited. */
  ghost predicate TabsVisited(fp: Hasher, start: Tables, w: WindowState, stored: StoredTabs, stats: ApplyStats,
                              n: nat, working: Tables, existing: StoredTabs, stats': ApplyStats) {
    && w.windowId in start && n <= |w.tabs| && n <= I64_MAX + 1
    && working == WithTabs(start, w.windowId, TabsAfter(fp, start[w.windowId].tabs, w.tabs, n))
    && stats' == stats + SumOf(TabParts(fp, start[w.windowId].tabs, w.tabs, n))
    && existing == stored - SeenTabs(w.tabs, n)
    && EncodableTabsPrefix(fp, w.tabs, n)
  }

  lemma TabsVisitedNone(fp: Hasher, start: Tables, w: WindowState, stored: StoredTabs, stats: ApplyStats)
    requires w.windowId in start
    ensures TabsVisited(fp, start, w, stored, stats, 0, start, stored, stats)
  {
    TabsAfterNone(fp, start[w.windowId].tabs, w.tabs);
    WithTabsSame(start, w.windowId);
    assert SeenTabs(w.tabs, 0) == {};
    assert stored - {} == stored;
  }

  /** What the next tab is compared with. */
  lemma TabsVisitedNext(fp: Hasher, start: Tables, w: WindowState, stored: StoredTabs, stats: ApplyStats,
                        n: nat, working: Tables, existing: StoredTabs, stats': ApplyStats)
    requires TabsVisited(fp, start, w, stored, stats, n, working, existing, stats') && n < |w.tabs|
    requires Mirrors(stored, start[w.windowId].tabs) && FittingRows(start[w.windowId].tabs)
    ensures w.windowId in working
    ensures Found(existing, w.tabs[n].tabId) == Comparable(StoredRow(start[w.windowId].tabs, w.tabs, n))
    ensures var row := StoredRow(start[w.windowId].tabs, w.tabs, n);
            row.Some? ==>
              && w.tabs[n].tabId <= I64_MAX && FittingRow(row.value)
              && w.tabs[n].tabId in working[w.windowId].tabs && working[w.windowId].tabs[w.tabs[n].tabId] == row.value
  {}

  lemma TabsVisitedStep(fp: Hasher, start: Tables, w: WindowState, stored: StoredTabs, stats: ApplyStats,
                        n: nat, working: Tables, existing: StoredTabs, stats': ApplyStats)
    requires TabsVisited(fp, start, w, stored, stats, n, working, existing, stats') && n < |w.tabs| && n <= I64_MAX
    requires EncodableTab(fp, w.tabs[n])
    ensures w.windowId in working
    ensures var tab, row := w.tabs[n], StoredRow(start[w.windowId].tabs, w.tabs, n);
            TabsVisited(fp, start, w, stored, stats, n + 1,
                        WithTabs(working, w.windowId,
                                 working[w.windowId].tabs[tab.tabId := Reconcile(fp, tab, n, row)]),
                        existing - {tab.tabId}, stats' + TabWrites(fp, tab, n, row))
  {
    hide TabsAfter, TabParts, SumOf, TabWrites, Reconcile, StoredRow;
    var prior, tab := start[w.windowId].tabs, w.tabs[n];
    var row := StoredRow(prior, w.tabs, n);
    SeenTabsStep(w.tabs, n);
    RemoveStep(stored, SeenTabs(w.tabs, n), tab.tabId);
    TabsAfterStep(fp, prior, w.tabs, n);
    TabPartsStep(fp, prior, w.tabs, n);
    PlusAssociates(stats, SumOf(TabParts(fp, prior, w.tabs, n)), TabWrites(fp, tab, n, row));
    WithTabsTwice(start, w.windowId, TabsAfter(fp, prior, w.tabs, n), TabsAfter(fp, prior, w.tabs, n + 1));
    EncodableTabsStep(fp, w.tabs, n);
  }

  /** What is left of the stored tabs was closed, and is still in its row. */
  lemma TabsVisitedAll(fp: Hasher, start: Tables, w: WindowState, stored: StoredTabs, stats: ApplyStats,
                       working: Tables, existing: StoredTabs, stats': ApplyStats)
    requires TabsVisited(fp, start, w, stored, stats, |w.tabs|, working, existing, stats')
    requires Mirrors(stored, start[w.windowId].tabs) && FittingRows(start[w.windowId].tabs)
    ensures existing.Keys == ClosedTabs(start[w.windowId].tabs, w.tabs)
    ensures w.windowId in working && existing.Keys <= working[w.windowId].tabs.Keys
    ensures forall id | id in existing :: id <= I64_MAX
    ensures EncodableTabs(fp, w.tabs)
  {}

  /** Deleting what is left completes the reconciliation. */
  lemma ApplyTabsEnd(fp: Hasher, start: Tables, w: WindowState, stored: StoredTabs, stats: ApplyStats,
                     working: Tables, existing: StoredTabs, stats': ApplyStats)
    requires TabsVisited(fp, start, w, stored, stats, |w.tabs|, working, existing, stats')
    requires existing.Keys == ClosedTabs(start[w.windowId].tabs, w.tabs)
    ensures w.windowId in working
    ensures WithTabs(working, w.windowId, working[w.windowId].tabs - existing.Keys)
            == WithTabs(start, w.windowId, ReconcileTabs(fp, start[w.windowId].tabs, w.tabs))
    ensures stats' + Times(TabDeleted, |existing.Keys|)
            == stats + ReconcileTabsStats(fp, start[w.windowId].tabs, w.tabs)
  {
    hide TabsAfter, TabParts, SumOf, ClosedTabs;
    var prior := start[w.windowId].tabs;
    PlusAssociates(stats, SumOf(TabParts(fp, prior, w.tabs, |w.tabs|)), Times(TabDeleted, |existing.Keys|));
    WithTabsTwice(start, w.windowId, TabsAfter(fp, prior, w.tabs, |w.tabs|), ReconcileTabs(fp, prior, w.tabs));
  }

  lemma EncodableTabIn(fp: Hasher, tabs: seq<TabState>, n: nat)
    requires n < |tabs|
    ensures EncodableTabs(fp, tabs) ==> EncodableTab(fp, tabs[n])
  {}

  function Found(existing: StoredTabs, id: int): Option<(StoredTab, Option<Fingerprint>)> {
    if id in existing then Some(existing[id]) else None
  }

  function Comparable(row: Option<TabRow>): Option<(StoredTab, Option<Fingerprint>)> {
    if row.Some? then Some((row.value.stored, StoredFingerprint(row.value))) else None
  }

  /******* Visiting the windows of a snapshot *******/

  ghost predicate WindowsVisited(fp: Hasher, start: Tables, s: Snapshot, n: nat,
                                 working: Tables, present: set<int>, stats: ApplyStats) {
    && n <= |s| && n <= I64_MAX + 1
    && present == SeenWindows(s, n)
    && EncodablePrefix(fp, s, n)
    && working == VisitWindows(fp, start, s, n)
    && stats == VisitWrites(fp, start, s, n)
  }

  lemma WindowsVisitedNone(fp: Hasher, start: Tables, s: Snapshot)
    ensures WindowsVisited(fp, start, s, 0, start, {}, NoStats)
  {
    assert SeenWindows(s, 0) == {};
  }

  lemma WindowsVisitedStep(fp: Hasher, start: Tables, s: Snapshot, n: nat,
                           working: Tables, present: set<int>, stats: ApplyStats)
    requires WindowsVisited(fp, start, s, n, working, present, stats) && n < |s| && n <= I64_MAX
    requires EncodableTabs(fp, s[n].tabs)
    ensures WindowsVisited(fp, start, s, n + 1, working[s[n].windowId := ReconcileWindow(fp, working, s[n], n)],
                           present + {s[n].windowId}, stats + ReconcileWindowStats(fp, working, s[n], n))
  {
    hide ReconcileWindow, ReconcileWindowStats, EncodableTabs;
    SeenWindowsStep(s, n);
    EncodableStep(fp, s, n);
  }

  lemma WindowsVisitedAll(fp: Hasher, start: Tables, s: Snapshot,
                          working: Tables, present: set<int>, stats: ApplyStats)
    requires WindowsVisited(fp, start, s, |s|, working, present, stats)
    ensures present == WindowIds(s) && Encodable(fp, s)
    ensures working == VisitWindows(fp, start, s, |s|) && stats == VisitWrites(fp, start, s, |s|)
  {}

  lemma EncodableWindow(fp: Hasher, s: Snapshot, n: nat)
    requires n < |s|
    ensures Encodable(fp, s) ==> EncodableTabs(fp, s[n].tabs)
  {}

  /******* Deleting rows one at a time *******/

  /** Rows and counts once every window of `ids` but those in `closed` was deleted. */
  ghost predicate WindowsDeleted(start: Tables, ids: set<int>, stats: ApplyStats,
                                 closed: set<int>, working: Tables, stats': ApplyStats) {
    && closed <= ids
    && working == start - (ids - closed)
    && stats' == stats + Times(WindowDeleted, |(ids - closed) * start.Keys|)
  }

  lemma WindowsDeletedNone(start: Tables, ids: set<int>, stats: ApplyStats)
    ensures WindowsDeleted(start, ids, stats, ids, start, stats)
  {
    assert ids - ids == {} && {} * start.Keys == {};
    TimesStep(WindowDeleted, 0);
    RemoveNone(start);
  }

  lemma WindowsDeletedStep(start: Tables, ids: set<int>, stats: ApplyStats,
                           closed: set<int>, working: Tables, stats': ApplyStats, id: int)
    requires WindowsDeleted(start, ids, stats, closed, working, stats') && id in closed
    ensures WindowsDeleted(start, ids, stats, closed - {id}, working - {id},
                           if id in working then stats' + multiset{WindowDeleted} else stats')
  {
    var gone := ids - closed;
    assert ids - (closed - {id}) == gone + {id};
    CountStep(gone, id, start.Keys);
    TimesStep(WindowDeleted, |gone * start.Keys|);
    PlusAssociates(stats, Times(WindowDeleted, |gone * start.Keys|), multiset{WindowDeleted});
    RemoveStep(start, gone, id);
  }

  lemma WindowsDeletedAll(start: Tables, ids: set<int>, stats: ApplyStats, working: Tables, stats': ApplyStats)
    requires WindowsDeleted(start, ids, stats, {}, working, stats')
    ensures working == start - ids && stats' == stats + Times(WindowDeleted, |ids * start.Keys|)
  {
    assert ids - {} == ids;
  }

  /** Rows and counts once every tab of `ids` but those in `closed` was deleted. */
  ghost predicate TabsDeleted(start: Tables, windowId: int, ids: set<int>, stats: ApplyStats,
                              closed: set<int>, working: Tables, stats': ApplyStats) {
    && windowId in start && closed <= ids <= start[windowId].tabs.Keys
    && working == WithTabs(start, windowId, start[windowId].tabs - (ids - closed))
    && stats' == stats + Times(TabDeleted, |ids - closed|)
  }

  lemma TabsDeletedNone(start: Tables, windowId: int, ids: set<int>, stats: ApplyStats)
    requires windowId in start && ids <= start[windowId].tabs.Keys
    ensures TabsDeleted(start, windowId, ids, stats, ids, start, stats)
  {
    assert ids - ids == {};
    TimesStep(TabDeleted, 0);
    RemoveNone(start[windowId].tabs);
    WithTabsSame(start, windowId);
  }

  lemma TabsDeletedStep(start: Tables, windowId: int, ids: set<int>, stats: ApplyStats,
                        closed: set<int>, working: Tables, stats': ApplyStats, id: int)
    requires TabsDeleted(start, windowId, ids, stats, closed, working, stats') && id in closed
    ensures windowId in working && id in working[windowId].tabs
    ensures TabsDeleted(start, windowId, ids, stats, closed - {id},
                        WithTabs(working, windowId, working[windowId].tabs - {id}), stats' + multiset{TabDeleted})
  {
    var gone := ids - closed;
    var rows := start[windowId].tabs;
    assert ids - (closed - {id}) == gone + {id};
    TimesStep(TabDeleted, |gone|);
    PlusAssociates(stats, Times(TabDeleted, |gone|), multiset{TabDeleted});
    RemoveStep(rows, gone, id);
    WithTabsTwice(start, windowId, rows - gone, rows - (gone + {id}));
  }

  lemma TabsDeletedAll(start: Tables, windowId: int, ids: set<int>, stats: ApplyStats,
                       working: Tables, stats': ApplyStats)
    requires TabsDeleted(start, windowId, ids, stats, {}, working, stats')
    ensures working == WithTabs(start, windowId, start[windowId].tabs - ids)
    ensures stats' == stats + Times(TabDeleted, |ids|)
  {
    assert ids - {} == ids;
  }
}
