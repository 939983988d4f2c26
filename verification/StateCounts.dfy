/** How many rows of each kind one reconciliation writes, counted from the snapshot and the database. */
module StateCounts {
  import opened Common
  import opened SessionModel
  import opened StateRows
  import opened RowFacts
  import opened StateTheorems

  /** The first `n` tabs that write a row in a given way. */
  function Writers(fp: Hasher, prior: map<int, TabRow>, tabs: seq<TabState>, n: nat, kind: RowWrite): (ws: set<int>)
    requires n <= |tabs|
  {
    set i | 0 <= i < n && kind in TabWrites(fp, tabs[i], i, StoredRow(prior, tabs, i))
  }

  lemma {:induction false} PartsCount(fp: Hasher, prior: map<int, TabRow>, tabs: seq<TabState>, n: nat, kind: RowWrite)
    requires n <= |tabs|
    ensures SumOf(TabParts(fp, prior, tabs, n))[kind] == |Writers(fp, prior, tabs, n, kind)|
  {
    hide SumOf, TabParts, StoredRow, TabWrites, Writers;
    if n == 0 {
      NoParts(fp, prior, tabs, kind);
    } else {
      PartsCount(fp, prior, tabs, n - 1, kind);
      TabPartsStep(fp, prior, tabs, n - 1);
      WritersStep(fp, prior, tabs, n - 1, kind);
    }
  }

  lemma WritersStep(fp: Hasher, prior: map<int, TabRow>, tabs: seq<TabState>, n: nat, kind: RowWrite)
    requires n < |tabs|
    ensures |Writers(fp, prior, tabs, n + 1, kind)|
            == |Writers(fp, prior, tabs, n, kind)| + TabWrites(fp, tabs[n], n, StoredRow(prior, tabs, n))[kind]
  {
    OneWrite(fp, tabs[n], n, StoredRow(prior, tabs, n), kind);
    WritersMore(fp, prior, tabs, n, kind);
    hide TabWrites, StoredRow, Writers;
  }

  lemma WritersMore(fp: Hasher, prior: map<int, TabRow>, tabs: seq<TabState>, n: nat, kind: RowWrite)
    requires n < |tabs|
    ensures n !in Writers(fp, prior, tabs, n, kind)
    ensures Writers(fp, prior, tabs, n + 1, kind)
            == if kind in TabWrites(fp, tabs[n], n, StoredRow(prior, tabs, n))
               then Writers(fp, prior, tabs, n, kind) + {n} else Writers(fp, prior, tabs, n, kind)
  {
    hide TabWrites, StoredRow;
  }

  lemma NoParts(fp: Hasher, prior: map<int, TabRow>, tabs: seq<TabState>, kind: RowWrite)
    ensures SumOf(TabParts(fp, prior, tabs, 0))[kind] == 0 && |Writers(fp, prior, tabs, 0, kind)| == 0
  {
    assert Writers(fp, prior, tabs, 0, kind) == {};
  }

  lemma OneWrite(fp: Hasher, tab: TabState, i: int, stored: Option<TabRow>, kind: RowWrite)
    ensures TabWrites(fp, tab, i, stored)[kind] == if kind in TabWrites(fp, tab, i, stored) then 1 else 0
  {}

  predicate SameText(fp: Hasher, prior: map<int, TabRow>, tab: TabState) {
    tab.tabId in prior && FingerprintOf(fp, prior[tab.tabId].content) == FingerprintOf(fp, tab.content)
  }

  lemma WritesOf(fp: Hasher, prior: map<int, TabRow>, tabs: seq<TabState>, i: nat)
    requires DistinctTabs(tabs) && ValidTabRows(fp, prior) && i < |tabs|
    ensures var tab, writes := tabs[i], TabWrites(fp, tabs[i], i, StoredRow(prior, tabs, i));
            && (TabInserted in writes <==> tab.tabId !in prior)
            && (TabContentWritten in writes <==> tab.tabId in prior && !SameText(fp, prior, tab))
            && (TabMetadataUpdated in writes
                <==> SameText(fp, prior, tab) && prior[tab.tabId].stored != StoredTabFromSnapshot(tab, i))
            && TabDeleted !in writes
  {
    DistinctTab(prior, tabs, i);
    if tabs[i].tabId in prior { StoredFingerprintValid(fp, prior[tabs[i].tabId]); }
  }

  /** Tabs that are new, that changed their text, or that only moved or changed otherwise. */
  function NewTabs(prior: map<int, TabRow>, tabs: seq<TabState>): (ws: set<int>) {
    set i | 0 <= i < |tabs| && tabs[i].tabId !in prior
  }

  function EditedTabs(fp: Hasher, prior: map<int, TabRow>, tabs: seq<TabState>): (ws: set<int>) {
    set i | 0 <= i < |tabs| && tabs[i].tabId in prior && !SameText(fp, prior, tabs[i])
  }

  function MovedTabs(fp: Hasher, prior: map<int, TabRow>, tabs: seq<TabState>): (ws: set<int>) {
    set i | 0 <= i < |tabs| && SameText(fp, prior, tabs[i])
            && prior[tabs[i].tabId].stored != StoredTabFromSnapshot(tabs[i], i)
  }

  lemma WritersAre(fp: Hasher, prior: map<int, TabRow>, tabs: seq<TabState>)
    requires DistinctTabs(tabs) && ValidTabRows(fp, prior)
    ensures Writers(fp, prior, tabs, |tabs|, TabInserted) == NewTabs(prior, tabs)
    ensures Writers(fp, prior, tabs, |tabs|, TabContentWritten) == EditedTabs(fp, prior, tabs)
    ensures Writers(fp, prior, tabs, |tabs|, TabMetadataUpdated) == MovedTabs(fp, prior, tabs)
    ensures Writers(fp, prior, tabs, |tabs|, TabDeleted) == {}
  {
    forall i | 0 <= i < |tabs|
      ensures var writes := TabWrites(fp, tabs[i], i, StoredRow(prior, tabs, i));
              && (TabInserted in writes <==> i in NewTabs(prior, tabs))
              && (TabContentWritten in writes <==> i in EditedTabs(fp, prior, tabs))
              && (TabMetadataUpdated in writes <==> i in MovedTabs(fp, prior, tabs))
              && TabDeleted !in writes
    {
      WritesOf(fp, prior, tabs, i);
    }
    hide TabWrites, StoredRow, SameText;
  }

  /**
   Exactly the new tabs are inserted, exactly the tabs whose fingerprint changed get their
   text rewritten, exactly the others that moved or changed get their metadata updated,
   and exactly the closed tabs are deleted.
   */
  lemma CountsAreExact(fp: Hasher, prior: map<int, TabRow>, tabs: seq<TabState>)
    requires DistinctTabs(tabs) && ValidTabRows(fp, prior)
    ensures var stats := ReconcileTabsStats(fp, prior, tabs);
            && stats[TabInserted] == |NewTabs(prior, tabs)|
            && stats[TabContentWritten] == |EditedTabs(fp, prior, tabs)|
            && stats[TabMetadataUpdated] == |MovedTabs(fp, prior, tabs)|
            && stats[TabDeleted] == |ClosedTabs(prior, tabs)|
  {
    hide SumOf, TabParts, Writers, NewTabs, EditedTabs, MovedTabs, ClosedTabs, DistinctTabs, ValidTabRows;
    PartsCount(fp, prior, tabs, |tabs|, TabInserted);
    PartsCount(fp, prior, tabs, |tabs|, TabContentWritten);
    PartsCount(fp, prior, tabs, |tabs|, TabMetadataUpdated);
    PartsCount(fp, prior, tabs, |tabs|, TabDeleted);
    WritersAre(fp, prior, tabs);
  }

  /******* All windows *******/

  /** The window is stored with this place in the order, this active tab and these bounds. */
  ghost predicate StoredAsIs(t: Tables, w: WindowState, position: int) {
    && w.windowId in t
    && var row := t[w.windowId].window;
       && row.position == position && row.bounds == w.bounds
       && row.activeTabId == if w.activeTabIndex.Some? && w.activeTabIndex.value < |w.tabs|
                             then Some(w.tabs[w.activeTabIndex.value].tabId) else None
  }

  /** How many of the first `n` windows are new or changed. */
  ghost function ChangedWindows(t: Tables, s: Snapshot, n: nat): (ws: set<int>)
    requires n <= |s|
  {
    set i | 0 <= i < n && !StoredAsIs(t, s[i], i)
  }

  lemma NoWindowWriters(fp: Hasher, prior: map<int, TabRow>, tabs: seq<TabState>, kind: RowWrite)
    requires kind == WindowWritten || kind == WindowDeleted
    ensures SumOf(TabParts(fp, prior, tabs, |tabs|))[kind] == 0
  {
    PartsCount(fp, prior, tabs, |tabs|, kind);
    hide SumOf, TabParts, StoredRow;
    assert Writers(fp, prior, tabs, |tabs|, kind) == {};
  }

  lemma TabsWriteNoWindow(fp: Hasher, prior: map<int, TabRow>, tabs: seq<TabState>)
    ensures ReconcileTabsStats(fp, prior, tabs)[WindowWritten] == 0
    ensures ReconcileTabsStats(fp, prior, tabs)[WindowDeleted] == 0
  {
    NoWindowWriters(fp, prior, tabs, WindowWritten);
    NoWindowWriters(fp, prior, tabs, WindowDeleted);
    hide SumOf, TabParts, ClosedTabs;
  }

  lemma WindowPart(fp: Hasher, t: Tables, w: WindowState, position: int)
    ensures var part := ReconcileWindowStats(fp, t, w, position);
            && part[WindowWritten] == (if StoredAsIs(t, w, position) then 0 else 1)
            && part[WindowDeleted] == 0
            && forall kind | kind != WindowWritten && kind != WindowDeleted ::
                 part[kind] == ReconcileTabsStats(fp, TabsOf(t, w.windowId), w.tabs)[kind]
  {
    TabsWriteNoWindow(fp, TabsOf(t, w.windowId), w.tabs);
    hide ReconcileTabsStats;
  }

  lemma ChangedStep(t: Tables, s: Snapshot, n: nat)
    requires n < |s|
    ensures |ChangedWindows(t, s, n + 1)| == |ChangedWindows(t, s, n)| + if StoredAsIs(t, s[n], n) then 0 else 1
  {
    hide StoredAsIs;
    assert ChangedWindows(t, s, n + 1)
        == if StoredAsIs(t, s[n], n) then ChangedWindows(t, s, n) else ChangedWindows(t, s, n) + {n};
  }

  lemma {:induction false} WindowsCount(fp: Hasher, t: Tables, s: Snapshot, n: nat)
    requires n <= |s|
    ensures SumOf(WindowParts(fp, t, s, n))[WindowWritten] == |ChangedWindows(t, s, n)|
    ensures SumOf(WindowParts(fp, t, s, n))[WindowDeleted] == 0
  {
    hide SumOf, ReconcileWindowStats, StoredAsIs, ChangedWindows, WindowParts;
    if n == 0 {
      NoWindows(fp, t, s);
    } else {
      WindowsCount(fp, t, s, n - 1);
      WindowPartsStep(fp, t, s, n - 1);
      WindowPart(fp, t, s[n - 1], n - 1);
      ChangedStep(t, s, n - 1);
    }
  }

  lemma NoWindows(fp: Hasher, t: Tables, s: Snapshot)
    ensures SumOf(WindowParts(fp, t, s, 0)) == NoStats && ChangedWindows(t, s, 0) == {}
  {}

  /** Exactly the new and changed window rows are written, exactly the stored windows no longer listed are deleted. */
  lemma WindowCountsAreExact(fp: Hasher, t: Tables, owned: set<int>, s: Snapshot)
    ensures ApplyWrites(fp, t, owned, s)[WindowWritten] == |ChangedWindows(t, s, |s|)|
    ensures ApplyWrites(fp, t, owned, s)[WindowDeleted] == |t.Keys * owned - WindowIds(s)|
  {
    WindowsCount(fp, t, s, |s|);
    hide SumOf, WindowParts, ChangedWindows;
  }
}
