/** When storing the session that was just read writes nothing. */
module StateSettled {
  import opened Common
  import opened SessionModel
  import opened StateRows
  import opened RowFacts
  import opened Ordering
  import opened RowOrder
  import opened StateTheorems
  import opened StateRoundTrip

  /** The k-th row in restore order has position k. */
  ghost predicate DenseOrder(pos: map<int, int>) {
    forall i | 0 <= i < |OrderedKeys(pos)| :: OrderedKeys(pos)[i] in pos && pos[OrderedKeys(pos)[i]] == i
  }

  ghost predicate SettledWindow(rows: WindowRows) {
    && DenseOrder(TabPositions(rows.tabs))
    && (rows.window.activeTabId.Some? ==> rows.window.activeTabId.value in rows.tabs)
  }

  /** Positions count up from zero and every stored active tab exists. */
  ghost predicate Settled(t: Tables) {
    DenseOrder(WindowPositions(t)) && forall id | id in t :: SettledWindow(t[id])
  }

  /******* One window *******/

  lemma LoadedTabs(fp: Hasher, rows: map<int, TabRow>)
    requires ValidTabRows(fp, rows)
    ensures Decodable(rows)
    ensures var tabs, ks := LoadTabsSpec(rows), OrderedKeys(TabPositions(rows));
            && |tabs| == |ks| && DistinctTabs(tabs) && TabIds(tabs) == rows.Keys
            && forall j | 0 <= j < |ks| ::
                 ks[j] in rows && tabs[j] == TabStateFromRow(ks[j], rows[ks[j]]) && tabs[j].tabId == ks[j]
  {
    assert Decodable(rows) by { DecodableRows(fp, rows); }
    assert forall id | id in rows :: 0 <= id;
    hide OrderedKeys, ValidTabRows, Decodable, DecodableRow, ValidRow;
    var pos := TabPositions(rows);
    var tabs, ks := LoadTabsSpec(rows), OrderedKeys(pos);
    OrderedIn(ks, pos);
    hide LoadTabsSpec, IsOrdered;
    forall j | 0 <= j < |ks|
      ensures ks[j] in rows && tabs[j] == TabStateFromRow(ks[j], rows[ks[j]]) && tabs[j].tabId == ks[j]
    {
      LoadedTabAt(rows, j);
    }
    hide TabStateFromRow, TabPositions;
    KeysAreIds(tabs, ks, pos);
    assert pos.Keys == rows.Keys by { PositionKeys(rows); }
  }

  lemma PositionKeys(rows: map<int, TabRow>)
    ensures TabPositions(rows).Keys == rows.Keys
  {}

  lemma LoadedTabAt(rows: map<int, TabRow>, j: nat)
    requires Decodable(rows) && (forall id | id in rows :: 0 <= id) && j < |OrderedKeys(TabPositions(rows))|
    ensures var ks := OrderedKeys(TabPositions(rows));
            && ks[j] in rows
            && LoadTabsSpec(rows)[j] == TabStateFromRow(ks[j], rows[ks[j]]) && LoadTabsSpec(rows)[j].tabId == ks[j]
  {
    OrderedIn(OrderedKeys(TabPositions(rows)), TabPositions(rows));
  }

  /** Tabs that carry the ordered keys are distinct and carry all of them. */
  lemma KeysAreIds(tabs: seq<TabState>, ks: seq<int>, pos: map<int, int>)
    requires IsOrdered(ks, pos) && |tabs| == |ks| && forall j | 0 <= j < |ks| :: tabs[j].tabId == ks[j]
    ensures DistinctTabs(tabs) && TabIds(tabs) == pos.Keys
  {
    OrderedIn(ks, pos);
    forall i, j | 0 <= i < j < |tabs| ensures tabs[i].tabId != tabs[j].tabId {
      assert Before(pos, ks[i], ks[j]);
    }
    forall id | id in pos ensures id in TabIds(tabs) {
      assert id in ks;
      var j :| 0 <= j < |ks| && ks[j] == id;
      assert tabs[j].tabId == id;
    }
  }

  lemma DecodableRows(fp: Hasher, rows: map<int, TabRow>)
    requires ValidTabRows(fp, rows)
    ensures Decodable(rows)
  {}

  /** A loaded tab is stored as it was exactly when it keeps its position. */
  lemma LoadedTabSettled(fp: Hasher, id: int, row: TabRow, j: int)
    requires 0 <= id && ValidRow(fp, row)
    ensures Reconcile(fp, TabStateFromRow(id, row), j, Some(row)) == row <==> row.stored.position == j
  {
    StoredFingerprintValid(fp, row);
  }

  lemma LoadedTabsSettled(fp: Hasher, rows: map<int, TabRow>)
    requires ValidTabRows(fp, rows)
    ensures Decodable(rows)
    ensures ReconcileTabs(fp, rows, LoadTabsSpec(rows)) == rows <==> DenseOrder(TabPositions(rows))
  {
    hide ReconcileTabs, Reconcile, LoadTabsSpec, TabIds, DistinctTabs, OrderedKeys, ValidRow;
    LoadedTabs(fp, rows);
    var tabs, pos := LoadTabsSpec(rows), TabPositions(rows);
    var ks := OrderedKeys(pos);
    ReconcileTabsRows(fp, rows, tabs);
    var got := ReconcileTabs(fp, rows, tabs);
    forall j | 0 <= j < |ks| ensures got[ks[j]] == rows[ks[j]] <==> pos[ks[j]] == j {
      LoadedTabSettled(fp, ks[j], rows[ks[j]], j);
    }
    if DenseOrder(pos) {
      forall id | id in rows ensures got[id] == rows[id] {
        assert id in ks;
        var j :| 0 <= j < |ks| && ks[j] == id;
      }
      assert got == rows;
    }
  }

  lemma ActiveResolves(fp: Hasher, id: int, rows: WindowRows)
    requires ValidTabRows(fp, rows.tabs)
    ensures Decodable(rows.tabs)
    ensures ActiveTabId(LoadWindow(id, rows)) == rows.window.activeTabId
            <==> (rows.window.activeTabId.Some? ==> rows.window.activeTabId.value in rows.tabs)
  {
    hide LoadTabsSpec, OrderedKeys, ValidRow, DistinctTabs, TabPositions;
    LoadedTabs(fp, rows.tabs);
    var tabs := LoadTabsSpec(rows.tabs);
    if rows.window.activeTabId.Some? {
      FirstExists(tabs, rows.window.activeTabId.value);
    }
  }

  lemma {:induction false} FirstExists(tabs: seq<TabState>, id: int)
    ensures FirstIndex(tabs, id).Some? <==> id in TabIds(tabs)
    ensures FirstIndex(tabs, id).Some? ==>
              FirstIndex(tabs, id).value < |tabs| && tabs[FirstIndex(tabs, id).value].tabId == id
  {
    var k := 0;
    while k < |tabs| && tabs[k].tabId != id
      invariant k <= |tabs| && forall j | 0 <= j < k :: tabs[j].tabId != id
    {
      k := k + 1;
    }
    FirstIndexIs(tabs, id, k);
  }

  lemma LoadedWindowSettled(fp: Hasher, t: Tables, id: int, i: int)
    requires ValidTables(fp, t) && id in t
    ensures Decodable(t[id].tabs)
    ensures ReconcileWindow(fp, t, LoadWindow(id, t[id]), i) == t[id]
            <==> t[id].window.position == i && SettledWindow(t[id])
  {
    hide ReconcileTabs, LoadTabsSpec, DenseOrder, TabPositions, FirstIndex, ActiveTabId, ValidTabRows;
    LoadedTabsSettled(fp, t[id].tabs);
    ActiveResolves(fp, id, t[id]);
  }

  /******* The whole database *******/

  lemma DecodableAll(fp: Hasher, t: Tables)
    requires ValidTables(fp, t)
    ensures DecodableTables(t)
  {
    forall id | id in t ensures Decodable(t[id].tabs) { DecodableRows(fp, t[id].tabs); }
  }

  lemma LoadedWindows(fp: Hasher, t: Tables)
    requires ValidTables(fp, t)
    ensures DecodableTables(t)
    ensures var s, ks := LoadSpec(t), OrderedKeys(WindowPositions(t));
            && |s| == |ks| && DistinctIds(s) && WindowIds(s) == t.Keys
            && forall i | 0 <= i < |ks| :: ks[i] in t && s[i] == LoadWindow(ks[i], t[ks[i]]) && s[i].windowId == ks[i]
  {
    hide OrderedKeys, LoadTabsSpec, FirstIndex, DistinctTabs, ValidTabRows;
    DecodableAll(fp, t);
    var pos := WindowPositions(t);
    var s, ks := LoadSpec(t), OrderedKeys(pos);
    OrderedIn(ks, pos);
    forall i, j | 0 <= i < j < |s| ensures s[i].windowId != s[j].windowId {
      assert Before(pos, ks[i], ks[j]);
    }
    forall i | 0 <= i < |s| ensures DistinctTabs(s[i].tabs) { LoadedTabs(fp, t[ks[i]].tabs); }
    forall id | id in t ensures id in WindowIds(s) {
      assert id in ks;
      var i :| 0 <= i < |ks| && ks[i] == id;
      assert s[i].windowId == id;
    }
  }

  lemma SameByKeys(t: Tables, got: Tables, ks: seq<int>)
    requires got.Keys == t.Keys && forall id :: id in ks <==> id in t
    ensures got == t <==> forall i | 0 <= i < |ks| :: ks[i] in t && got[ks[i]] == t[ks[i]]
  {
    forall i | 0 <= i < |ks| ensures ks[i] in t { var id := ks[i]; assert id in ks; }
    if forall i | 0 <= i < |ks| :: got[ks[i]] == t[ks[i]] {
      forall id | id in t ensures got[id] == t[id] {
        assert id in ks;
        var i :| 0 <= i < |ks| && ks[i] == id;
      }
      assert got == t;
    }
  }

  lemma SettledByKeys(t: Tables, ks: seq<int>)
    requires ks == OrderedKeys(WindowPositions(t))
    ensures forall i | 0 <= i < |ks| :: ks[i] in t
    ensures Settled(t) <==> forall i | 0 <= i < |ks| :: t[ks[i]].window.position == i && SettledWindow(t[ks[i]])
  {
    hide SettledWindow;
    OrderedIn(ks, WindowPositions(t));
    forall id | id in t ensures exists i :: 0 <= i < |ks| && ks[i] == id { assert id in ks; }
  }

  /** Storing what was just read writes nothing exactly when the rows were settled. */
  lemma LoadedWritesNothing(fp: Hasher, t: Tables)
    requires ValidTables(fp, t)
    ensures DecodableTables(t)
    ensures ApplyWrites(fp, t, t.Keys, LoadSpec(t)) == NoStats <==> Settled(t)
  {
    hide Apply, ApplyWrites, ReconcileWindow, LoadWindow, LoadSpec, DistinctIds, SettledWindow, OrderedKeys,
         ValidTables, Settled, DecodableTables, WindowPositions;
    LoadedWindows(fp, t);
    var s, ks := LoadSpec(t), OrderedKeys(WindowPositions(t));
    WritesAreExact(fp, t, t.Keys, s);
    assert DistinctWindows(s) by { DistinctIdsWindows(s); }
    ApplyRows(fp, t, t.Keys, s);
    var got := Apply(fp, t, t.Keys, s);
    forall i | 0 <= i < |ks|
      ensures ks[i] in t
      ensures got[ks[i]] == t[ks[i]] <==> t[ks[i]].window.position == i && SettledWindow(t[ks[i]])
    {
      LoadedWindowSettled(fp, t, ks[i], i);
    }
    OrderListsKeys(t, ks);
    SameByKeys(t, got, ks);
    SettledByKeys(t, ks);
  }

  lemma OrderListsKeys(t: Tables, ks: seq<int>)
    requires ks == OrderedKeys(WindowPositions(t))
    ensures forall id :: id in ks <==> id in t
  {}

  /** A reconciled window is settled. */
  lemma ReconciledSettled(fp: Hasher, t: Tables, w: WindowState, position: int)
    requires DistinctTabs(w.tabs) && ValidTables(fp, t)
    ensures SettledWindow(ReconcileWindow(fp, t, w, position))
  {
    hide ReconcileTabs, Reconcile, OrderedKeys;
    var prior := TabsOf(t, w.windowId);
    TabsInOrder(fp, prior, w.tabs);
    ReconcileTabsRows(fp, prior, w.tabs);
    forall j | 0 <= j < |w.tabs|
      ensures w.tabs[j].tabId in ReconcileTabs(fp, prior, w.tabs)
      ensures ReconcileTabs(fp, prior, w.tabs)[w.tabs[j].tabId].stored.position == j
    {
      TabRoundTrip(fp, prior, w.tabs[j], j);
    }
  }

  /** A handle that owns everything stored leaves settled rows. */
  lemma ApplySettles(fp: Hasher, t: Tables, owned: set<int>, s: Snapshot)
    requires DistinctIds(s) && ValidTables(fp, t) && t.Keys <= owned
    ensures Settled(Apply(fp, t, owned, s))
  {
    hide Apply, ReconcileWindow, OrderedKeys, SettledWindow, DistinctTabs, ValidTables;
    var u := Apply(fp, t, owned, s);
    ApplyRows(fp, t, owned, s);
    VisitedPositions(fp, t, owned, s);
    PositionsOrder(OrderedKeys(WindowPositions(u)), WindowPositions(u), s);
    forall id | id in u ensures SettledWindow(u[id]) {
      var i := WindowAt(s, id);
      ReconciledSettled(fp, t, s[i], i);
    }
  }

  /** Load after apply, then apply again: nothing is written. */
  lemma ReloadWritesNothing(fp: Hasher, t: Tables, owned: set<int>, s: Snapshot)
    requires DistinctIds(s) && ValidTables(fp, t) && Encodable(fp, s) && t.Keys <= owned
    ensures var u := Apply(fp, t, owned, s);
            DecodableTables(u) && ApplyWrites(fp, u, u.Keys, LoadSpec(u)) == NoStats
  {
    hide Apply, ApplyWrites, Settled, LoadSpec, Encodable, DistinctIds;
    var u := Apply(fp, t, owned, s);
    assert DistinctWindows(s) by { DistinctIdsWindows(s); }
    ApplyValid(fp, t, owned, s);
    ApplySettles(fp, t, owned, s);
    LoadedWritesNothing(fp, u);
  }

  lemma DistinctIdsWindows(s: Snapshot)
    requires DistinctIds(s)
    ensures DistinctWindows(s)
  {}
}
