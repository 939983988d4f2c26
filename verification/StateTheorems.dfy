/**
 What a reconciliation means: it replaces the handle's windows by the snapshot,
 it reads back as the snapshot, and it writes exactly the rows that change.
 */
module StateTheorems {
  import opened Common
  import opened SessionModel
  import opened StateRows
  import opened RowFacts

  /******* Each row, seen from the starting tables *******/

  function Lookup(rows: map<int, TabRow>, id: int): Option<TabRow> {
    if id in rows then Some(rows[id]) else None
  }

  lemma DistinctTab(prior: map<int, TabRow>, tabs: seq<TabState>, i: nat)
    requires DistinctTabs(tabs) && i < |tabs|
    ensures tabs[i].tabId in TabIds(tabs) && LastIndex(tabs, |tabs|, tabs[i].tabId) == i
    ensures StoredRow(prior, tabs, i) == Lookup(prior, tabs[i].tabId)
  {
    assert tabs[i].tabId in TabIds(tabs);
    LastIndexIs(tabs, |tabs|, tabs[i].tabId, i);
  }

  /** The rows of one window: exactly the snapshot's tabs, each reconciled with its own stored row. */
  lemma ReconcileTabsRows(fp: Hasher, prior: map<int, TabRow>, tabs: seq<TabState>)
    requires DistinctTabs(tabs) && ValidTabRows(fp, prior)
    ensures ReconcileTabs(fp, prior, tabs).Keys == TabIds(tabs)
    ensures forall i | 0 <= i < |tabs| ::
              && tabs[i].tabId in TabIds(tabs)
              && ReconcileTabs(fp, prior, tabs)[tabs[i].tabId]
                 == Reconcile(fp, tabs[i], i, Lookup(prior, tabs[i].tabId))
  {
    forall i | 0 <= i < |tabs|
      ensures tabs[i].tabId in TabIds(tabs)
      ensures ReconcileTabs(fp, prior, tabs)[tabs[i].tabId] == Reconcile(fp, tabs[i], i, Lookup(prior, tabs[i].tabId))
    {
      DistinctTab(prior, tabs, i);
    }
  }

  /** The tables of one reconciliation, window by window. */
  lemma ApplyRows(fp: Hasher, t: Tables, owned: set<int>, s: Snapshot)
    requires DistinctWindows(s)
    ensures Apply(fp, t, owned, s).Keys == t.Keys - owned + WindowIds(s)
    ensures forall i | 0 <= i < |s| ::
              && s[i].windowId in WindowIds(s)
              && Apply(fp, t, owned, s)[s[i].windowId] == ReconcileWindow(fp, t, s[i], i)
    ensures forall id | id in t && id !in owned && id !in WindowIds(s) :: Apply(fp, t, owned, s)[id] == t[id]
  {
    forall i | 0 <= i < |s|
      ensures s[i].windowId in WindowIds(s)
      ensures Apply(fp, t, owned, s)[s[i].windowId] == ReconcileWindow(fp, t, s[i], i)
    {
      DistinctUnseen(s, i);
    }
  }

  /******* Refinement of "replace my windows with this snapshot" *******/

  /** The simple form: forget the owned windows, then store every snapshot window verbatim. */
  ghost function Replace(fp: Hasher, t: Tables, owned: set<int>, s: Snapshot): Tables {
    (t - owned) + map id | id in WindowIds(s) :: FreshRows(fp, s[WindowAt(s, id)], WindowAt(s, id))
  }

  /** A stored text with the fingerprint of the tab's text is the tab's text. */
  ghost predicate NoTabCollision(fp: Hasher, prior: map<int, TabRow>, tab: TabState) {
    tab.tabId in prior && FingerprintOf(fp, prior[tab.tabId].content) == FingerprintOf(fp, tab.content)
    ==> prior[tab.tabId].content == tab.content
  }

  ghost predicate NoWindowCollision(fp: Hasher, t: Tables, w: WindowState) {
    forall j | 0 <= j < |w.tabs| :: NoTabCollision(fp, TabsOf(t, w.windowId), w.tabs[j])
  }

  ghost predicate NoCollision(fp: Hasher, t: Tables, s: Snapshot) {
    forall i | 0 <= i < |s| :: NoWindowCollision(fp, t, s[i])
  }

  /** A reconciled row is the fresh row, holding the old text if the fingerprints agree. */
  lemma ReconcileIsFresh(fp: Hasher, prior: map<int, TabRow>, tab: TabState, i: int)
    requires ValidTabRows(fp, prior)
    ensures var keep := tab.tabId in prior
                        && FingerprintOf(fp, prior[tab.tabId].content) == FingerprintOf(fp, tab.content);
            Reconcile(fp, tab, i, Lookup(prior, tab.tabId))
            == FreshRow(fp, tab, i).(content := if keep then prior[tab.tabId].content else tab.content)
  {
    if tab.tabId in prior { StoredFingerprintValid(fp, prior[tab.tabId]); }
  }

  /** One window is replaced verbatim exactly when none of its tabs collides. */
  lemma ReconcileWindowIsFresh(fp: Hasher, t: Tables, w: WindowState, position: int)
    requires DistinctTabs(w.tabs) && ValidTables(fp, t)
    ensures ReconcileWindow(fp, t, w, position) == FreshRows(fp, w, position) <==> NoWindowCollision(fp, t, w)
  {
    var prior := TabsOf(t, w.windowId);
    var got, want := ReconcileTabs(fp, prior, w.tabs), FreshRows(fp, w, position).tabs;
    ReconcileTabsRows(fp, prior, w.tabs);
    forall j | 0 <= j < |w.tabs|
      ensures w.tabs[j].tabId in got && w.tabs[j].tabId in want
      ensures got[w.tabs[j].tabId] == want[w.tabs[j].tabId] <==> NoTabCollision(fp, prior, w.tabs[j])
    {
      ReconcileIsFresh(fp, prior, w.tabs[j], j);
      DistinctTab(prior, w.tabs, j);
    }
    if NoWindowCollision(fp, t, w) {
      forall id | id in want ensures got[id] == want[id] {
        var j := LastIndex(w.tabs, |w.tabs|, id);
        assert NoTabCollision(fp, prior, w.tabs[j]);
      }
      assert got == want;
    }
  }

  /** `apply` is "replace my windows with this snapshot" exactly when no stored text collides. */
  lemma ApplyRefinesReplace(fp: Hasher, t: Tables, owned: set<int>, s: Snapshot)
    requires DistinctIds(s) && ValidTables(fp, t)
    ensures Apply(fp, t, owned, s) == Replace(fp, t, owned, s) <==> NoCollision(fp, t, s)
  {
    hide Apply, FreshRows, ReconcileWindow, NoWindowCollision, DistinctTabs;
    var got, want := Apply(fp, t, owned, s), Replace(fp, t, owned, s);
    ApplyRows(fp, t, owned, s);
    forall i | 0 <= i < |s|
      ensures s[i].windowId in got && s[i].windowId in want
      ensures got[s[i].windowId] == want[s[i].windowId] <==> NoWindowCollision(fp, t, s[i])
    {
      ReconcileWindowIsFresh(fp, t, s[i], i);
      DistinctUnseen(s, i);
    }
    if NoCollision(fp, t, s) {
      forall id | id in want ensures id in got && got[id] == want[id] {
        if id in WindowIds(s) {
          var i := WindowAt(s, id);
          assert NoWindowCollision(fp, t, s[i]);
        }
      }
      assert got == want;
    }
  }

  /******* Minimal writes *******/

  lemma PlusNone(a: ApplyStats, b: ApplyStats)
    ensures a + b == NoStats <==> a == NoStats && b == NoStats
  {
    if a + b == NoStats {
      forall k ensures a[k] == 0 && b[k] == 0 { assert (a + b)[k] == 0; }
    }
  }

  lemma TimesNone(kind: RowWrite, n: nat)
    ensures Times(kind, n) == NoStats <==> n == 0
  {
    assert Times(kind, n)[kind] == n;
    if n == 0 { assert Times(kind, n) == NoStats; }
  }

  lemma {:induction false} SumNone(parts: seq<ApplyStats>)
    ensures SumOf(parts) == NoStats <==> forall i | 0 <= i < |parts| :: parts[i] == NoStats
  {
    if |parts| > 0 {
      var front := parts[..|parts| - 1];
      SumNone(front);
      PlusNone(SumOf(front), parts[|parts| - 1]);
      assert parts == front + [parts[|parts| - 1]];
    }
  }

  lemma TabWritesExact(fp: Hasher, prior: map<int, TabRow>, tab: TabState, i: int)
    requires ValidTabRows(fp, prior)
    ensures TabWrites(fp, tab, i, Lookup(prior, tab.tabId)) == NoStats
            <==> tab.tabId in prior && Reconcile(fp, tab, i, Lookup(prior, tab.tabId)) == prior[tab.tabId]
  {
    if tab.tabId in prior { StoredFingerprintValid(fp, prior[tab.tabId]); }
  }

  lemma TabPartsNone(fp: Hasher, prior: map<int, TabRow>, tabs: seq<TabState>)
    requires DistinctTabs(tabs) && ValidTabRows(fp, prior)
    ensures SumOf(TabParts(fp, prior, tabs, |tabs|)) == NoStats
            <==> forall i | 0 <= i < |tabs| ::
                   tabs[i].tabId in prior
                   && Reconcile(fp, tabs[i], i, Lookup(prior, tabs[i].tabId)) == prior[tabs[i].tabId]
  {
    var parts := TabParts(fp, prior, tabs, |tabs|);
    SumNone(parts);
    forall i | 0 <= i < |tabs|
      ensures parts[i] == NoStats
              <==> tabs[i].tabId in prior
                   && Reconcile(fp, tabs[i], i, Lookup(prior, tabs[i].tabId)) == prior[tabs[i].tabId]
    {
      DistinctTab(prior, tabs, i);
      TabWritesExact(fp, prior, tabs[i], i);
    }
  }

  /** Two row maps agree exactly when no row was closed and every visited row is unchanged. */
  lemma SameRows(prior: map<int, TabRow>, got: map<int, TabRow>, tabs: seq<TabState>)
    requires got.Keys == TabIds(tabs) && forall id | id in prior :: 0 <= id
    ensures got == prior <==>
            && |ClosedTabs(prior, tabs)| == 0
            && forall i | 0 <= i < |tabs| ::
                 tabs[i].tabId in got && tabs[i].tabId in prior && got[tabs[i].tabId] == prior[tabs[i].tabId]
  {
    forall i | 0 <= i < |tabs| ensures tabs[i].tabId in got { assert tabs[i].tabId in TabIds(tabs); }
    if && ClosedTabs(prior, tabs) == {}
       && forall i | 0 <= i < |tabs| :: tabs[i].tabId in prior && got[tabs[i].tabId] == prior[tabs[i].tabId] {
      forall id | id in prior ensures id in got {
        assert id !in ClosedTabs(prior, tabs);
      }
      forall id | id in got ensures id in prior && got[id] == prior[id] {
        var i := LastIndex(tabs, |tabs|, id);
      }
      assert got == prior;
    }
    if got == prior {
      assert ClosedTabs(prior, tabs) == {};
    }
  }

  lemma ReconcileTabsStatsExact(fp: Hasher, prior: map<int, TabRow>, tabs: seq<TabState>)
    requires DistinctTabs(tabs) && ValidTabRows(fp, prior)
    ensures ReconcileTabsStats(fp, prior, tabs) == NoStats <==> ReconcileTabs(fp, prior, tabs) == prior
  {
    var closed := ClosedTabs(prior, tabs);
    PlusNone(SumOf(TabParts(fp, prior, tabs, |tabs|)), Times(TabDeleted, |closed|));
    TimesNone(TabDeleted, |closed|);
    TabPartsNone(fp, prior, tabs);
    ReconcileTabsRows(fp, prior, tabs);
    SameRows(prior, ReconcileTabs(fp, prior, tabs), tabs);
  }

  lemma ReconcileWindowStatsExact(fp: Hasher, t: Tables, w: WindowState, position: int)
    requires DistinctTabs(w.tabs) && ValidTables(fp, t)
    ensures ReconcileWindowStats(fp, t, w, position) == NoStats
            <==> w.windowId in t && ReconcileWindow(fp, t, w, position) == t[w.windowId]
  {
    PlusNone(WindowWrites(t, w, position), ReconcileTabsStats(fp, TabsOf(t, w.windowId), w.tabs));
    ReconcileTabsStatsExact(fp, TabsOf(t, w.windowId), w.tabs);
  }

  lemma SameTables(t: Tables, got: Tables, owned: set<int>, s: Snapshot)
    requires got.Keys == t.Keys - owned + WindowIds(s)
    requires forall id | id in t && id !in owned && id !in WindowIds(s) :: got[id] == t[id]
    ensures got == t <==>
            && |DeletedWindows(t, owned, s)| == 0
            && forall i | 0 <= i < |s| ::
                 s[i].windowId in got && s[i].windowId in t && got[s[i].windowId] == t[s[i].windowId]
  {
    var deleted := DeletedWindows(t, owned, s);
    forall i | 0 <= i < |s| ensures s[i].windowId in got { assert s[i].windowId in WindowIds(s); }
    if && deleted == {}
       && forall i | 0 <= i < |s| :: s[i].windowId in t && got[s[i].windowId] == t[s[i].windowId] {
      forall id | id in t ensures id in got {
        assert id !in deleted;
      }
      forall id | id in got ensures id in t && got[id] == t[id] {
        if id in WindowIds(s) {
          var i := WindowAt(s, id);
        }
      }
      assert got == t;
    }
    if got == t {
      assert deleted == {};
    }
  }

  /** The write counts are all zero exactly when the database does not change. */
  lemma WritesAreExact(fp: Hasher, t: Tables, owned: set<int>, s: Snapshot)
    requires DistinctIds(s) && ValidTables(fp, t)
    ensures ApplyWrites(fp, t, owned, s) == NoStats <==> Apply(fp, t, owned, s) == t
  {
    hide Apply, ReconcileWindow, ReconcileWindowStats, SumOf, Times, DeletedWindows, DistinctTabs;
    var got := Apply(fp, t, owned, s);
    var deleted := DeletedWindows(t, owned, s);
    var parts := WindowParts(fp, t, s, |s|);
    PlusNone(SumOf(parts), Times(WindowDeleted, |deleted|));
    TimesNone(WindowDeleted, |deleted|);
    SumNone(parts);
    ApplyRows(fp, t, owned, s);
    forall i | 0 <= i < |s|
      ensures parts[i] == NoStats <==> s[i].windowId in t && got[s[i].windowId] == t[s[i].windowId]
    {
      ReconcileWindowStatsExact(fp, t, s[i], i);
    }
    SameTables(t, got, owned, s);
  }

  lemma ReconcileStable(fp: Hasher, prior: map<int, TabRow>, tab: TabState, i: int, row: TabRow)
    requires ValidTabRows(fp, prior) && row == Reconcile(fp, tab, i, Lookup(prior, tab.tabId))
    ensures Reconcile(fp, tab, i, Some(row)) == row
  {
    ReconcileIsFresh(fp, prior, tab, i);
    if tab.content.Some? { CastRoundTrip(fp(tab.content.value).hash); }
  }

  /** One window reconciled a second time is unchanged. */
  lemma ReconcileWindowStable(fp: Hasher, t: Tables, w: WindowState, position: int, u: Tables)
    requires DistinctTabs(w.tabs) && ValidTables(fp, t) && EncodableTabs(fp, w.tabs)
    requires w.windowId in u && u[w.windowId] == ReconcileWindow(fp, t, w, position)
    ensures ReconcileWindow(fp, u, w, position) == u[w.windowId]
  {
    hide ReconcileTabs, Reconcile, EncodableTabs;
    var prior := TabsOf(t, w.windowId);
    var rows := ReconcileTabs(fp, prior, w.tabs);
    ReconcileTabsValid(fp, prior, w.tabs);
    ReconcileTabsRows(fp, prior, w.tabs);
    ReconcileTabsRows(fp, rows, w.tabs);
    var again := ReconcileTabs(fp, rows, w.tabs);
    forall id | id in rows ensures again[id] == rows[id] {
      var j := LastIndex(w.tabs, |w.tabs|, id);
      ReconcileStable(fp, prior, w.tabs[j], j, rows[id]);
    }
    assert again == rows;
  }

  lemma ApplyValid(fp: Hasher, t: Tables, owned: set<int>, s: Snapshot)
    requires DistinctWindows(s) && ValidTables(fp, t) && Encodable(fp, s)
    ensures ValidTables(fp, Apply(fp, t, owned, s))
  {
    var once := Apply(fp, t, owned, s);
    ApplyRows(fp, t, owned, s);
    forall id | id in once ensures ValidTabRows(fp, once[id].tabs) {
      if id in WindowIds(s) {
        var i := WindowAt(s, id);
        ReconcileTabsValid(fp, TabsOf(t, id), s[i].tabs);
      }
    }
  }

  /** Re-applying a snapshot writes nothing, whatever was stored first and whatever collides. */
  lemma ReapplyWritesNothing(fp: Hasher, t: Tables, owned: set<int>, s: Snapshot)
    requires DistinctIds(s) && ValidTables(fp, t) && Encodable(fp, s)
    ensures ApplyWrites(fp, Apply(fp, t, owned, s), WindowIds(s), s) == NoStats
  {
    hide Apply, ApplyWrites, ReconcileWindow, EncodableTabs, DistinctTabs, ValidTabRows;
    var once := Apply(fp, t, owned, s);
    var twice := Apply(fp, once, WindowIds(s), s);
    ApplyValid(fp, t, owned, s);
    ApplyRows(fp, t, owned, s);
    ApplyRows(fp, once, WindowIds(s), s);
    assert twice.Keys == once.Keys;
    forall id | id in once ensures twice[id] == once[id] {
      if id in WindowIds(s) {
        var i := WindowAt(s, id);
        ReconcileWindowStable(fp, t, s[i], i, once);
      }
    }
    assert twice == once;
    WritesAreExact(fp, once, WindowIds(s), s);
  }
}
