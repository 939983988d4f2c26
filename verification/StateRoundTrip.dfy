/** What `load` reads back after `apply`, and what `apply` writes after `load`. */
module StateRoundTrip {
  import opened Common
  import opened SessionModel
  import opened StateRows
  import opened Ordering
  import opened RowOrder
  import opened StateTheorems

  /******* The session one reconciliation stores *******/

  /** Text a tab reads back with: a stored text of the same fingerprint is kept. */
  function KeptContent(fp: Hasher, prior: map<int, TabRow>, tab: TabState): Option<string> {
    if tab.tabId in prior && FingerprintOf(fp, prior[tab.tabId].content) == FingerprintOf(fp, tab.content)
    then prior[tab.tabId].content
    else tab.content
  }

  function KeptTabs(fp: Hasher, prior: map<int, TabRow>, tabs: seq<TabState>): (kept: seq<TabState>)
    ensures |kept| == |tabs|
  {
    seq(|tabs|, i requires 0 <= i < |tabs| => tabs[i].(content := KeptContent(fp, prior, tabs[i])))
  }

  /** An index past the tabs resolves to no active tab. */
  function ResolvedIndex(w: WindowState): Option<nat> {
    if w.activeTabIndex.Some? && w.activeTabIndex.value < |w.tabs| then w.activeTabIndex else None
  }

  function KeptWindow(fp: Hasher, t: Tables, w: WindowState): WindowState {
    w.(tabs := KeptTabs(fp, TabsOf(t, w.windowId), w.tabs), activeTabIndex := ResolvedIndex(w))
  }

  /** The snapshot as it reads back when it is stored over `t`. */
  function Kept(fp: Hasher, t: Tables, s: Snapshot): (kept: Snapshot)
    ensures |kept| == |s|
  {
    seq(|s|, i requires 0 <= i < |s| => KeptWindow(fp, t, s[i]))
  }

  /** The snapshot with nothing lost but unusable active indices. */
  function Resolved(s: Snapshot): (r: Snapshot)
    ensures |r| == |s|
  {
    seq(|s|, i requires 0 <= i < |s| => s[i].(activeTabIndex := ResolvedIndex(s[i])))
  }

  /******* One window *******/

  lemma TabRoundTrip(fp: Hasher, prior: map<int, TabRow>, tab: TabState, i: int)
    requires ValidTabRows(fp, prior)
    ensures var row := Reconcile(fp, tab, i, Lookup(prior, tab.tabId));
            && row.stored.position == i
            && DecodableRow(row)
            && TabStateFromRow(tab.tabId, row) == tab.(content := KeptContent(fp, prior, tab))
  {
    ReconcileIsFresh(fp, prior, tab, i);
  }

  function IdsOf(tabs: seq<TabState>): (ids: seq<int>) {
    seq(|tabs|, i requires 0 <= i < |tabs| => tabs[i].tabId)
  }

  /** Entries whose positions count up along the tabs can only be listed in tab order. */
  lemma TabOrder(pos: map<int, int>, tabs: seq<TabState>)
    requires pos.Keys == TabIds(tabs) && forall i | 0 <= i < |tabs| :: tabs[i].tabId in pos && pos[tabs[i].tabId] == i
    ensures OrderedKeys(pos) == IdsOf(tabs)
  {
    hide OrderedKeys;
    var ids := IdsOf(tabs);
    forall id ensures id in ids <==> id in pos {
      if id in pos {
        var i :| 0 <= i < |tabs| && tabs[i].tabId == id;
        assert ids[i] == id;
      }
    }
    OrderedUnique(OrderedKeys(pos), ids, pos);
  }

  /** Reconciled tabs sort back into snapshot order. */
  lemma TabsInOrder(fp: Hasher, prior: map<int, TabRow>, tabs: seq<TabState>)
    requires DistinctTabs(tabs) && ValidTabRows(fp, prior)
    ensures Decodable(ReconcileTabs(fp, prior, tabs))
    ensures OrderedKeys(TabPositions(ReconcileTabs(fp, prior, tabs))) == IdsOf(tabs)
  {
    hide ReconcileTabs, Reconcile, OrderedKeys, IdsOf, DecodableRow, ValidTabRows, DistinctTabs;
    var rows := ReconcileTabs(fp, prior, tabs);
    ReconcileTabsRows(fp, prior, tabs);
    forall i | 0 <= i < |tabs|
      ensures tabs[i].tabId in rows && rows[tabs[i].tabId].stored.position == i && DecodableRow(rows[tabs[i].tabId])
    {
      TabRoundTrip(fp, prior, tabs[i], i);
    }
    forall id | id in rows ensures DecodableRow(rows[id]) {
      var i :| 0 <= i < |tabs| && tabs[i].tabId == id;
    }
    TabOrder(TabPositions(rows), tabs);
  }

  lemma TabsReadBack(fp: Hasher, prior: map<int, TabRow>, tabs: seq<TabState>)
    requires DistinctTabs(tabs) && ValidTabRows(fp, prior)
    ensures Decodable(ReconcileTabs(fp, prior, tabs))
    ensures LoadTabsSpec(ReconcileTabs(fp, prior, tabs)) == KeptTabs(fp, prior, tabs)
  {
    hide ReconcileTabs, Reconcile, KeptContent, OrderedKeys;
    TabsInOrder(fp, prior, tabs);
    ReconcileTabsRows(fp, prior, tabs);
    var rows := ReconcileTabs(fp, prior, tabs);
    var got, want := LoadTabsSpec(rows), KeptTabs(fp, prior, tabs);
    forall i | 0 <= i < |tabs| ensures got[i] == want[i] {
      TabRoundTrip(fp, prior, tabs[i], i);
    }
  }

  lemma WindowReadsBack(fp: Hasher, t: Tables, w: WindowState, position: int)
    requires DistinctTabs(w.tabs) && ValidTables(fp, t)
    ensures Decodable(ReconcileWindow(fp, t, w, position).tabs)
    ensures LoadWindow(w.windowId, ReconcileWindow(fp, t, w, position)) == KeptWindow(fp, t, w)
  {
    hide ReconcileTabs, LoadTabsSpec, KeptContent;
    var prior := TabsOf(t, w.windowId);
    TabsReadBack(fp, prior, w.tabs);
    var kept := KeptTabs(fp, prior, w.tabs);
    if w.activeTabIndex.Some? && w.activeTabIndex.value < |w.tabs| {
      FirstIndexIs(kept, w.tabs[w.activeTabIndex.value].tabId, w.activeTabIndex.value);
    }
  }

  /******* All windows *******/

  /** The windows of a snapshot whose identity is in `ids`, in order. */
  function Select(s: Snapshot, ids: set<int>): Snapshot {
    if |s| == 0 then []
    else Select(s[..|s| - 1], ids) + if s[|s| - 1].windowId in ids then [s[|s| - 1]] else []
  }

  function Filter(ks: seq<int>, ids: set<int>): (kept: seq<int>)
    ensures forall k :: k in kept <==> k in ks && k in ids
  {
    if |ks| == 0 then []
    else Filter(ks[..|ks| - 1], ids) + if ks[|ks| - 1] in ids then [ks[|ks| - 1]] else []
  }

  /** Filtering keeps the order. */
  lemma {:induction false} FilterOrdered(ks: seq<int>, ids: set<int>, pos: map<int, int>)
    requires forall k | k in ks :: k in pos
    requires forall i, j | 0 <= i < j < |ks| :: ks[i] in pos && ks[j] in pos && Before(pos, ks[i], ks[j])
    ensures forall k | k in Filter(ks, ids) :: k in pos
    ensures forall i, j | 0 <= i < j < |Filter(ks, ids)| ::
              && Filter(ks, ids)[i] in pos && Filter(ks, ids)[j] in pos
              && Before(pos, Filter(ks, ids)[i], Filter(ks, ids)[j])
  {
    if |ks| > 0 {
      var front, last := ks[..|ks| - 1], ks[|ks| - 1];
      FilterOrdered(front, ids, pos);
      var kept := Filter(front, ids);
      forall i | 0 <= i < |kept| && last in ids ensures Before(pos, kept[i], last) {
        var k := kept[i];
        assert k in kept && k in front;
      }
    }
  }

  /** Loading some rows is loading all of them and selecting. */
  lemma {:induction false} SelectLoaded(t: Tables, ks: seq<int>, ids: set<int>)
    requires DecodableTables(t) && forall k | k in ks :: k in t
    ensures Select(LoadIds(t, ks), ids) == LoadIds(t, Filter(ks, ids))
  {
    hide LoadWindow, Decodable;
    if |ks| == 0 {
    } else {
      var front, last := ks[..|ks| - 1], ks[|ks| - 1];
      assert last in ks;
      forall k | k in front ensures k in t { assert k in ks; }
      SelectLoaded(t, front, ids);
      assert LoadIds(t, ks)[..|ks| - 1] == LoadIds(t, front);
      assert LoadIds(t, ks)[|ks| - 1].windowId == last;
      if last in ids {
        assert LoadIds(t, Filter(ks, ids)) == LoadIds(t, Filter(front, ids)) + [LoadWindow(last, t[last])];
      }
    }
  }

  function WindowIdSeq(s: Snapshot): (ids: seq<int>) {
    seq(|s|, i requires 0 <= i < |s| => s[i].windowId)
  }

  lemma VisitedPositions(fp: Hasher, t: Tables, owned: set<int>, s: Snapshot)
    requires DistinctWindows(s)
    ensures forall i | 0 <= i < |s| ::
              && s[i].windowId in WindowPositions(Apply(fp, t, owned, s))
              && WindowPositions(Apply(fp, t, owned, s))[s[i].windowId] == i
  {
    hide Apply, ReconcileTabs;
    ApplyRows(fp, t, owned, s);
  }

  /** Among all stored windows, the snapshot's sort into snapshot order. */
  lemma WindowsInOrder(fp: Hasher, t: Tables, owned: set<int>, s: Snapshot)
    requires DistinctWindows(s)
    ensures Filter(OrderedKeys(WindowPositions(Apply(fp, t, owned, s))), WindowIds(s)) == WindowIdSeq(s)
  {
    hide Apply, WindowPositions, Filter;
    var all := WindowPositions(Apply(fp, t, owned, s));
    VisitedPositions(fp, t, owned, s);
    var kept := Filter(OrderedKeys(all), WindowIds(s));
    OrderedIn(OrderedKeys(all), all);
    FilterOrdered(OrderedKeys(all), WindowIds(s), all);
    PositionsOrder(kept, all, s);
  }

  /** Windows whose positions count up from zero can only be listed in snapshot order. */
  lemma PositionsOrder(ks: seq<int>, all: map<int, int>, s: Snapshot)
    requires forall i | 0 <= i < |s| :: s[i].windowId in all && all[s[i].windowId] == i
    requires forall k :: k in ks <==> k in all && k in WindowIds(s)
    requires forall i, j | 0 <= i < j < |ks| :: ks[i] in all && ks[j] in all && Before(all, ks[i], ks[j])
    ensures ks == WindowIdSeq(s)
  {
    var ids := WindowIdSeq(s);
    var pos := map id | id in WindowIds(s) && id in all :: all[id];
    forall i | 0 <= i < |s| ensures ids[i] in pos && pos[ids[i]] == i { assert s[i].windowId in WindowIds(s); }
    forall id | id in pos ensures id in ids {
      var i :| 0 <= i < |s| && s[i].windowId == id;
      assert ids[i] == id;
    }
    SameOrder(ks, all, pos);
    OrderedUnique(ks, ids, pos);
  }

  lemma SameOrder(ks: seq<int>, all: map<int, int>, pos: map<int, int>)
    requires forall k :: k in ks <==> k in pos
    requires forall k | k in pos :: k in all && pos[k] == all[k]
    requires forall i, j | 0 <= i < j < |ks| :: ks[i] in all && ks[j] in all && Before(all, ks[i], ks[j])
    ensures IsOrdered(ks, pos)
  {
    forall i, j | 0 <= i < j < |ks| ensures ks[i] in pos && ks[j] in pos && Before(pos, ks[i], ks[j]) {
      var a, b := ks[i], ks[j];
      assert a in ks && b in ks && Before(all, ks[i], ks[j]);
    }
  }

  lemma ApplyDecodable(fp: Hasher, t: Tables, owned: set<int>, s: Snapshot)
    requires DistinctWindows(s) && ValidTables(fp, t) && Encodable(fp, s)
    ensures DecodableTables(Apply(fp, t, owned, s))
  {
    ApplyValid(fp, t, owned, s);
  }

  /**
   Reading back a stored snapshot: its windows come back in window order and tab
   order with their metadata, remote specs, bounds and resolved active tabs, each
   text verbatim or the stored text of the same fingerprint.
   */
  lemma LoadAfterApply(fp: Hasher, t: Tables, owned: set<int>, s: Snapshot)
    requires DistinctIds(s) && ValidTables(fp, t) && Encodable(fp, s)
    ensures DecodableTables(Apply(fp, t, owned, s))
    ensures Select(LoadSpec(Apply(fp, t, owned, s)), WindowIds(s)) == Kept(fp, t, s)
  {
    hide Apply, ReconcileWindow, LoadWindow, KeptWindow, Select, Filter, DistinctTabs, WindowPositions, Encodable;
    var u := Apply(fp, t, owned, s);
    ApplyDecodable(fp, t, owned, s);
    ApplyRows(fp, t, owned, s);
    var ks := OrderedKeys(WindowPositions(u));
    KeysOfOrder(u, ks);
    SelectLoaded(u, ks, WindowIds(s));
    WindowsInOrder(fp, t, owned, s);
    var got, want := LoadIds(u, WindowIdSeq(s)), Kept(fp, t, s);
    forall i | 0 <= i < |s| ensures got[i] == want[i] {
      WindowReadsBack(fp, t, s[i], i);
    }
  }

  lemma KeysOfOrder(t: Tables, ks: seq<int>)
    requires IsOrdered(ks, WindowPositions(t))
    ensures forall k :: k in ks <==> k in t
  {}

  lemma KeptTabsExact(fp: Hasher, prior: map<int, TabRow>, tabs: seq<TabState>)
    ensures KeptTabs(fp, prior, tabs) == tabs <==> forall j | 0 <= j < |tabs| :: NoTabCollision(fp, prior, tabs[j])
  {
    var kept := KeptTabs(fp, prior, tabs);
    forall j | 0 <= j < |tabs| ensures kept[j] == tabs[j] <==> NoTabCollision(fp, prior, tabs[j]) {}
  }

  /** The stored snapshot reads back as itself exactly when no stored text collides. */
  lemma LoadsVerbatim(fp: Hasher, t: Tables, owned: set<int>, s: Snapshot)
    requires DistinctIds(s) && ValidTables(fp, t) && Encodable(fp, s)
    ensures DecodableTables(Apply(fp, t, owned, s))
    ensures Select(LoadSpec(Apply(fp, t, owned, s)), WindowIds(s)) == Resolved(s) <==> NoCollision(fp, t, s)
  {
    hide Apply, LoadSpec, Select, KeptTabs, NoTabCollision, Encodable, DistinctIds, DecodableTables, ValidTables;
    LoadAfterApply(fp, t, owned, s);
    var got, want := Kept(fp, t, s), Resolved(s);
    forall i | 0 <= i < |s| ensures got[i] == want[i] <==> NoWindowCollision(fp, t, s[i]) {
      KeptTabsExact(fp, TabsOf(t, s[i].windowId), s[i].tabs);
    }
  }
}
