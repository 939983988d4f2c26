/** The database handle: `apply`, `claim_persisted_windows` and `load` as they run. */
module StateDatabase {
  import opened Common
  import opened SessionModel
  import opened StateRows
  import opened LoopFacts
  import opened RowFacts
  import opened Ordering
  import opened RowOrder

  /** A connection: `working` is what the open transaction sees, `committed` what others see. */
  class Connection {
    const faulty: bool
    var committed: Tables
    var working: Tables

    constructor (faulty: bool)
      ensures this.faulty == faulty && committed == map[] && working == map[]
    {
      this.faulty := faulty;
      committed, working := map[], map[];
    }

    /** Runs one statement; on a faulty connection any statement may fail. */
    method Execute() returns (ok: bool)
      ensures !faulty ==> ok
    {
      ok := true;
      if faulty {
        ok := *;
      }
    }
  }

  class StateDb {
    const conn: Connection
    const fp: Hasher
    var owned: set<int>

    ghost predicate Valid()
      reads this, conn
    {
      FittingTables(conn.committed)
    }

    constructor (conn: Connection, fp: Hasher)
      requires FittingTables(conn.committed)
      ensures this.conn == conn && this.fp == fp && owned == {} && Valid()
    {
      this.conn, this.fp, owned := conn, fp, {};
    }

    /** Persists a snapshot, writing only the rows that differ from the database. */
    method Apply(s: Snapshot) returns (r: Result<ApplyStats>)
      requires Valid()
      modifies this, conn
      ensures Valid()
      ensures r.Err? ==> conn.committed == old(conn.committed) && owned == old(owned)
      ensures r.Ok? ==> owned == WindowIds(s)
      ensures r.Ok? ==>
                && conn.committed == ApplyInOrder(fp, old(conn.committed), old(owned), s)
                && r.value == InOrderWrites(fp, old(conn.committed), old(owned), s)
      ensures r.Ok? ==> Encodable(fp, s)
      ensures !conn.faulty ==> (r.Ok? <==> Encodable(fp, s))
    {
      ghost var before := conn.committed;
      var ok := conn.Execute();
      if !ok { return Err; }
      conn.working := conn.committed;
      var stats, present;
      ok, stats, present := ApplyWindows(s);
      if !ok { return Err; }
      ok, stats := DeleteWindows(owned - present, stats);
      if !ok { return Err; }
      VisitedKeys(fp, before, s, |s|);
      assert (owned - present) * VisitWindows(fp, before, s, |s|).Keys == DeletedWindows(before, owned, s);
      ok := conn.Execute();
      if !ok { return Err; }
      conn.committed := conn.working;
      owned := present;
      return Ok(stats);
    }

    /** Visits every window of the snapshot, noting the ids it holds. */
    method ApplyWindows(s: Snapshot) returns (ok: bool, stats: ApplyStats, present: set<int>)
      requires FittingTables(conn.working)
      modifies conn`working
      ensures ok ==> FittingTables(conn.working) && present == WindowIds(s)
      ensures ok ==>
                && conn.working == VisitWindows(fp, old(conn.working), s, |s|)
                && stats == VisitWrites(fp, old(conn.working), s, |s|)
      ensures ok ==> Encodable(fp, s)
      ensures !conn.faulty ==> (ok <==> Encodable(fp, s))
    {
      hide VisitWindows, VisitWrites, WindowsVisited, ReconcileWindow, ReconcileWindowStats, FittingTables,
           EncodableTabs, SeenWindows;
      ghost var before := conn.working;
      ok, stats, present := true, NoStats, {};
      WindowsVisitedNone(fp, before, s);
      var position := 0;
      while position < |s|
        invariant 0 <= position <= |s| && ok
        invariant WindowsVisited(fp, before, s, position, conn.working, present, stats)
        invariant FittingTables(conn.working)
      {
        if position > I64_MAX { return false, stats, present; }
        ghost var working, counted := conn.working, stats;
        ok, stats := ApplyWindowAndTabs(s[position], position, stats);
        if !ok { EncodableWindow(fp, s, position); return; }
        WindowsVisitedStep(fp, before, s, position, working, present, counted);
        present := present + {s[position].windowId};
        position := position + 1;
      }
      WindowsVisitedAll(fp, before, s, conn.working, present, stats);
    }

    /** The two reconciliations `apply` runs for each window. */
    method ApplyWindowAndTabs(w: WindowState, position: nat, stats: ApplyStats)
      returns (ok: bool, stats': ApplyStats)
      requires FittingTables(conn.working)
      modifies conn`working
      ensures ok ==> FittingTables(conn.working) && EncodableTabs(fp, w.tabs)
      ensures ok ==> conn.working ==
                     old(conn.working)[w.windowId := ReconcileWindow(fp, old(conn.working), w, position)]
      ensures ok ==> stats' == stats + ReconcileWindowStats(fp, old(conn.working), w, position)
      ensures !conn.faulty ==> (ok <==> EncodableTabs(fp, w.tabs))
    {
      hide ReconcileTabs, ReconcileTabsStats, FittingRows, EncodableTabs, WindowWrites, StoredWindowFromSnapshot;
      PlusAssociates(stats, WindowWrites(conn.working, w, position),
                     ReconcileTabsStats(fp, TabsOf(conn.working, w.windowId), w.tabs));
      ok, stats' := ApplyWindow(w, position, stats);
      if !ok { return; }
      ok, stats' := ApplyTabs(w, stats');
      if !ok { return; }
      ReconcileTabsFit(fp, TabsOf(old(conn.working), w.windowId), w.tabs);
    }

    /** Deletes one window row and, by the cascade, its tabs; tells whether there was one. */
    method DeleteWindow(id: int) returns (ok: bool, deleted: bool)
      modifies conn`working
      ensures ok ==> conn.working == old(conn.working) - {id} && deleted == (id in old(conn.working))
      ensures !conn.faulty ==> ok
    {
      ok := conn.Execute();
      deleted := id in conn.working;
      if ok { conn.working := conn.working - {id}; }
    }

    /** Deletes owned windows that the snapshot no longer holds, with their tabs. */
    method DeleteWindows(ids: set<int>, stats: ApplyStats) returns (ok: bool, stats': ApplyStats)
      modifies conn`working
      ensures ok ==> conn.working == old(conn.working) - ids
      ensures ok ==> stats' == stats + Times(WindowDeleted, |ids * old(conn.working).Keys|)
      ensures !conn.faulty ==> ok
    {
      hide WindowsDeleted;
      ghost var start := conn.working;
      var closed := ids;
      ok, stats' := true, stats;
      WindowsDeletedNone(start, ids, stats);
      while closed != {}
        invariant ok
        invariant WindowsDeleted(start, ids, stats, closed, conn.working, stats')
        decreases |closed|
      {
        Inhabited(closed);
        var id :| id in closed;
        WindowsDeletedStep(start, ids, stats, closed, conn.working, stats', id);
        var deleted;
        ok, deleted := DeleteWindow(id);
        if !ok { return; }
        if deleted { stats' := stats' + multiset{WindowDeleted}; }
        closed := closed - {id};
      }
      WindowsDeletedAll(start, ids, stats, conn.working, stats');
    }

    /** Inserts or updates one window row, skipping the write when nothing differs. */
    method ApplyWindow(w: WindowState, position: nat, stats: ApplyStats) returns (ok: bool, stats': ApplyStats)
      modifies conn`working
      ensures ok ==> conn.working == old(conn.working)[w.windowId :=
                       WindowRows(StoredWindowFromSnapshot(w, position), TabsOf(old(conn.working), w.windowId))]
      ensures ok ==> stats' == stats + WindowWrites(old(conn.working), w, position)
      ensures ok ==> ActiveTabId(w).Some? ==> ActiveTabId(w).value <= I64_MAX
      ensures !conn.faulty && !ok ==> !EncodableTabs(fp, w.tabs)
    {
      ok, stats' := false, stats;
      var activeTabId: Option<int> := None;
      if w.activeTabIndex.Some? && w.activeTabIndex.value < |w.tabs| {
        activeTabId := Some(w.tabs[w.activeTabIndex.value].tabId);
        if activeTabId.value > I64_MAX { return; }
      }
      var desired := StoredWindow(position, activeTabId, w.bounds);
      ok := conn.Execute();
      if !ok { return; }
      if w.windowId in conn.working && conn.working[w.windowId].window == desired { return; }
      ok := conn.Execute();
      if !ok { return; }
      var tabs := if w.windowId in conn.working then conn.working[w.windowId].tabs else map[];
      conn.working := conn.working[w.windowId := WindowRows(desired, tabs)];
      stats' := stats + multiset{WindowWritten};
    }

    /** Reconciles the tab rows of one window with the snapshot. */
    method ApplyTabs(w: WindowState, stats: ApplyStats) returns (ok: bool, stats': ApplyStats)
      requires w.windowId in conn.working && FittingRows(conn.working[w.windowId].tabs)
      modifies conn`working
      ensures ok ==> conn.working == WithTabs(old(conn.working), w.windowId,
                                              ReconcileTabs(fp, old(conn.working)[w.windowId].tabs, w.tabs))
      ensures ok ==> stats' == stats + ReconcileTabsStats(fp, old(conn.working)[w.windowId].tabs, w.tabs)
      ensures ok ==> EncodableTabs(fp, w.tabs)
      ensures !conn.faulty ==> (ok <==> EncodableTabs(fp, w.tabs))
    {
      ghost var start := conn.working;
      var stored, existing;
      stats' := stats;
      ok, stored := ReadStoredTabs(w.windowId);
      if !ok { return; }
      ok, existing, stats' := ApplyTabsLoop(w, stored, stats);
      if !ok { return; }
      TabsVisitedAll(fp, start, w, stored, stats, conn.working, existing, stats');
      ApplyTabsEnd(fp, start, w, stored, stats, conn.working, existing, stats');
      ok, stats' := DeleteTabs(w.windowId, existing.Keys, stats');
    }

    /** Visits every tab of the snapshot window; what is left of `existing` was closed. */
    method ApplyTabsLoop(w: WindowState, stored: StoredTabs, stats: ApplyStats)
      returns (ok: bool, existing: StoredTabs, stats': ApplyStats)
      requires w.windowId in conn.working && FittingRows(conn.working[w.windowId].tabs)
      requires Mirrors(stored, conn.working[w.windowId].tabs)
      modifies conn`working
      ensures ok ==> TabsVisited(fp, old(conn.working), w, stored, stats, |w.tabs|, conn.working, existing, stats')
      ensures !conn.faulty && !ok ==> !EncodableTabs(fp, w.tabs)
    {
      hide TabsVisited, Mirrors, FittingRows, Reconcile, TabWrites, StoredRow, Comparable, FittingRow, EncodableTab,
           WithTabs;
      ghost var start := conn.working;
      ok, existing, stats' := true, stored, stats;
      TabsVisitedNone(fp, start, w, stored, stats);
      var position := 0;
      while position < |w.tabs|
        invariant 0 <= position <= |w.tabs| && ok
        invariant TabsVisited(fp, start, w, stored, stats, position, conn.working, existing, stats')
      {
        var tab := w.tabs[position];
        if position > I64_MAX { return false, existing, stats'; }
        TabsVisitedNext(fp, start, w, stored, stats, position, conn.working, existing, stats');
        ghost var working, left, counted := conn.working, existing, stats';
        var found := Found(existing, tab.tabId);
        existing := existing - {tab.tabId};
        ok, stats' := ApplyTab(w.windowId, tab, position, found, stats',
                               StoredRow(start[w.windowId].tabs, w.tabs, position));
        if !ok { EncodableTabIn(fp, w.tabs, position); return; }
        TabsVisitedStep(fp, start, w, stored, stats, position, working, left, counted);
        position := position + 1;
      }
    }

    /** Writes one tab: insert, rewrite the text, update the metadata, or nothing. */
    method ApplyTab(windowId: int, tab: TabState, position: nat, found: Option<(StoredTab, Option<Fingerprint>)>,
                    stats: ApplyStats, ghost row: Option<TabRow>)
      returns (ok: bool, stats': ApplyStats)
      requires windowId in conn.working
      requires found == Comparable(row)
      requires row.Some? ==>
                 && tab.tabId <= I64_MAX && FittingRow(row.value)
                 && tab.tabId in conn.working[windowId].tabs && conn.working[windowId].tabs[tab.tabId] == row.value
      modifies conn`working
      ensures ok ==> conn.working == WithTabs(old(conn.working), windowId,
                       old(conn.working)[windowId].tabs[tab.tabId := Reconcile(fp, tab, position, row)])
      ensures ok ==> stats' == stats + TabWrites(fp, tab, position, row)
      ensures ok ==> EncodableTab(fp, tab)
      ensures !conn.faulty ==> (ok <==> EncodableTab(fp, tab))
    {
      stats' := stats;
      var desired := StoredTabFromSnapshot(tab, position);
      var fingerprint := FingerprintOf(fp, tab.content);
      match found {
        case None =>
          ok := InsertTab(windowId, tab, desired, fingerprint);
          if !ok { return; }
          stats' := stats + multiset{TabInserted};
        case Some((stored, storedFingerprint)) =>
          if storedFingerprint != fingerprint {
            ok := UpdateTab(windowId, tab, desired, fingerprint);
            if !ok { return; }
            stats' := stats + multiset{TabContentWritten};
          } else {
            SameFingerprintFits(fp, row.value, tab.content);
            ok := true;
            SameEntry(conn.working[windowId].tabs, tab.tabId);
            WithTabsSame(conn.working, windowId);
            if stored != desired {
              ok := UpdateTabMetadata(windowId, tab.tabId, desired);
              if !ok { return; }
              stats' := stats + multiset{TabMetadataUpdated};
            }
          }
      }
    }

    /** Deletes the rows of tabs that were closed. */
    method DeleteTabs(windowId: int, ids: set<int>, stats: ApplyStats) returns (ok: bool, stats': ApplyStats)
      requires windowId in conn.working && ids <= conn.working[windowId].tabs.Keys
      requires forall id | id in ids :: id <= I64_MAX
      modifies conn`working
      ensures ok ==> conn.working == WithTabs(old(conn.working), windowId, old(conn.working)[windowId].tabs - ids)
      ensures ok ==> stats' == stats + Times(TabDeleted, |ids|)
      ensures !conn.faulty ==> ok
    {
      hide TabsDeleted;
      ghost var start := conn.working;
      var closed := ids;
      ok, stats' := true, stats;
      TabsDeletedNone(start, windowId, ids, stats);
      while closed != {}
        invariant ok
        invariant TabsDeleted(start, windowId, ids, stats, closed, conn.working, stats')
        decreases |closed|
      {
        Inhabited(closed);
        var id :| id in closed;
        TabsDeletedStep(start, windowId, ids, stats, closed, conn.working, stats', id);
        var deleted;
        ok, deleted := DeleteTab(windowId, id);
        if !ok { return; }
        if deleted { stats' := stats' + multiset{TabDeleted}; }
        closed := closed - {id};
      }
      TabsDeletedAll(start, windowId, ids, stats, conn.working, stats');
    }

    /** Deletes one tab row; tells whether there was one. */
    method DeleteTab(windowId: int, id: int) returns (ok: bool, deleted: bool)
      requires windowId in conn.working
      modifies conn`working
      ensures ok ==> deleted == (id in old(conn.working)[windowId].tabs)
      ensures ok ==> conn.working == WithTabs(old(conn.working), windowId, old(conn.working)[windowId].tabs - {id})
      ensures !conn.faulty ==> ok
    {
      ok := conn.Execute();
      deleted := id in conn.working[windowId].tabs;
      if ok { conn.working := WithTabs(conn.working, windowId, conn.working[windowId].tabs - {id}); }
    }

    /** Reads the comparable state of every tab row of a window, keyed by unsigned id. */
    method ReadStoredTabs(windowId: int) returns (ok: bool, tabs: StoredTabs)
      requires windowId in conn.working
      ensures !conn.faulty ==> ok
      ensures ok ==> Mirrors(tabs, conn.working[windowId].tabs)
    {
      tabs := map[];
      ok := conn.Execute();
      if !ok { return; }
      var rows := conn.working[windowId].tabs;
      var todo := rows.Keys;
      while todo != {}
        invariant ok && todo <= rows.Keys
        invariant tabs.Keys == set id | id in rows && id !in todo && 0 <= id
        invariant forall id | id in tabs :: tabs[id] == (rows[id].stored, StoredFingerprint(rows[id]))
        decreases |todo|
      {
        Inhabited(todo);
        var id :| id in todo;
        if 0 <= id {
          tabs := tabs[id := (rows[id].stored, StoredFingerprint(rows[id]))];
        }
        todo := todo - {id};
      }
    }

    /** Upserts a tab row, including its buffer text. */
    method InsertTab(windowId: int, tab: TabState, desired: StoredTab, fingerprint: Option<Fingerprint>)
      returns (ok: bool)
      requires windowId in conn.working
      modifies conn`working
      ensures ok ==> conn.working == WithTabs(old(conn.working), windowId, old(conn.working)[windowId].tabs[tab.tabId :=
                       TabRow(desired, tab.content, HashColumn(fingerprint), LenColumn(fingerprint))])
      ensures ok ==> tab.tabId <= I64_MAX && (fingerprint.Some? ==> fingerprint.value.len <= I64_MAX)
      ensures !ok && !conn.faulty ==> tab.tabId > I64_MAX || (fingerprint.Some? && fingerprint.value.len > I64_MAX)
    {
      if tab.tabId > I64_MAX { return false; }
      var hash, len;
      ok, hash, len := FingerprintColumns(fingerprint);
      if !ok { return; }
      ok := conn.Execute();
      if !ok { return; }
      var rows := conn.working[windowId].tabs;
      conn.working := WithTabs(conn.working, windowId, rows[tab.tabId := TabRow(desired, tab.content, hash, len)]);
    }

    /** Updates an existing tab row, including its buffer text. */
    method UpdateTab(windowId: int, tab: TabState, desired: StoredTab, fingerprint: Option<Fingerprint>)
      returns (ok: bool)
      requires windowId in conn.working && tab.tabId in conn.working[windowId].tabs
      modifies conn`working
      ensures ok ==> conn.working == WithTabs(old(conn.working), windowId, old(conn.working)[windowId].tabs[tab.tabId :=
                       TabRow(desired, tab.content, HashColumn(fingerprint), LenColumn(fingerprint))])
      ensures ok ==> tab.tabId <= I64_MAX && (fingerprint.Some? ==> fingerprint.value.len <= I64_MAX)
      ensures !ok && !conn.faulty ==> tab.tabId > I64_MAX || (fingerprint.Some? && fingerprint.value.len > I64_MAX)
    {
      if tab.tabId > I64_MAX { return false; }
      var hash, len;
      ok, hash, len := FingerprintColumns(fingerprint);
      if !ok { return; }
      ok := conn.Execute();
      if !ok { return; }
      var rows := conn.working[windowId].tabs;
      conn.working := WithTabs(conn.working, windowId, rows[tab.tabId := TabRow(desired, tab.content, hash, len)]);
    }

    /** Updates everything about a tab row except its buffer text and fingerprint. */
    method UpdateTabMetadata(windowId: int, tabId: int, desired: StoredTab) returns (ok: bool)
      requires windowId in conn.working && tabId in conn.working[windowId].tabs
      modifies conn`working
      ensures ok ==> conn.working == WithTabs(old(conn.working), windowId, old(conn.working)[windowId].tabs[tabId :=
                       old(conn.working)[windowId].tabs[tabId].(stored := desired)])
      ensures ok ==> tabId <= I64_MAX
      ensures !ok && !conn.faulty ==> tabId > I64_MAX
    {
      if tabId > I64_MAX { return false; }
      ok := conn.Execute();
      if !ok { return; }
      var rows := conn.working[windowId].tabs;
      conn.working := WithTabs(conn.working, windowId, rows[tabId := rows[tabId].(stored := desired)]);
    }

    /** Encodes a fingerprint into its two columns; a length past the column width is an error. */
    static method FingerprintColumns(fingerprint: Option<Fingerprint>)
      returns (ok: bool, hash: Option<int>, len: Option<int>)
      ensures ok <==> (fingerprint.Some? ==> fingerprint.value.len <= I64_MAX)
      ensures ok ==> hash == HashColumn(fingerprint) && len == LenColumn(fingerprint)
    {
      ok, hash, len := true, None, None;
      if fingerprint.Some? {
        if fingerprint.value.len > I64_MAX { return false, None, None; }
        hash, len := Some(CastSigned(fingerprint.value.hash)), Some(fingerprint.value.len);
      }
    }

    /** Claims every window already persisted as owned by this handle. */
    method ClaimPersistedWindows() returns (ok: bool)
      modifies this`owned
      ensures ok ==> owned == conn.committed.Keys
      ensures !ok ==> owned == old(owned)
      ensures !conn.faulty ==> ok
    {
      ok := conn.Execute();
      if ok {
        owned := conn.committed.Keys;
      }
    }

    /** Reads every persisted window, in restore order, with its tabs; an undecodable row is an error. */
    method Load() returns (r: Result<Snapshot>)
      ensures r.Ok? ==> DecodableTables(conn.committed) && r.value == LoadSpec(conn.committed)
      ensures !conn.faulty ==> (r.Ok? <==> DecodableTables(conn.committed))
    {
      hide LoadTabsSpec, FirstIndex, OrderedKeys, Decodable, TabPositions, WindowPositions, IsOrdered;
      var ok := conn.Execute();
      if !ok { return Err; }
      var t := conn.committed;
      var ids := RestoreOrder(t);
      var windows: Snapshot := [];
      var i := 0;
      while i < |ids|
        invariant 0 <= i <= |ids| && |windows| == i
        invariant forall j | 0 <= j < i :: Decodable(t[ids[j]].tabs) && windows[j] == LoadWindow(ids[j], t[ids[j]])
      {
        var id := ids[i];
        var rows := t[id];
        var tabs;
        ok, tabs := LoadTabs(rows.tabs);
        if !ok { OneUndecodable(t, id); return Err; }
        var active := ActiveIndex(tabs, rows.window.activeTabId);
        windows := windows + [WindowState(id, tabs, active, rows.window.bounds)];
        i := i + 1;
      }
      LoadedAll(t, ids, windows);
      return Ok(windows);
    }

    /** The query for the windows: their ids by position, then by id. */
    static method RestoreOrder(t: Tables) returns (ids: seq<int>)
      ensures ids == OrderedKeys(WindowPositions(t))
      ensures forall i | 0 <= i < |ids| :: ids[i] in t
    {
      ids := OrderBy(WindowPositions(t));
      OrderedUnique(ids, OrderedKeys(WindowPositions(t)), WindowPositions(t));
      OrderedIn(ids, WindowPositions(t));
    }

    /** Where the active tab stands among the tabs read; a negative id stands nowhere. */
    static method ActiveIndex(tabs: seq<TabState>, activeTabId: Option<int>) returns (active: Option<nat>)
      ensures active == if activeTabId.Some? && 0 <= activeTabId.value
                        then FirstIndex(tabs, activeTabId.value) else None
    {
      active := None;
      if activeTabId.Some? && 0 <= activeTabId.value {
        var k := 0;
        while k < |tabs| && tabs[k].tabId != activeTabId.value
          invariant 0 <= k <= |tabs|
          invariant forall j | 0 <= j < k :: tabs[j].tabId != activeTabId.value
        {
          k := k + 1;
        }
        FirstIndexIs(tabs, activeTabId.value, k);
        if k < |tabs| { active := Some(k); }
      }
    }

    /** Reads the tabs of one window, in display order; a remote host without a port cannot be decoded. */
    method LoadTabs(rows: map<int, TabRow>) returns (ok: bool, tabs: seq<TabState>)
      ensures ok ==> Decodable(rows) && tabs == LoadTabsSpec(rows)
      ensures !conn.faulty ==> (ok <==> Decodable(rows))
    {
      hide OrderedKeys, IsOrdered, TabPositions, TabStateFromRow;
      tabs := [];
      ok := conn.Execute();
      if !ok { return; }
      var ids := DisplayOrder(rows);
      var i := 0;
      while i < |ids|
        invariant 0 <= i <= |ids| && |tabs| == i && ok
        invariant forall j | 0 <= j < i ::
                    DecodableRow(rows[ids[j]]) && tabs[j] == TabStateFromRow(ids[j], rows[ids[j]])
      {
        var id := ids[i];
        assert id in rows;
        if !DecodableRow(rows[id]) { return false, tabs; }
        tabs := tabs + [TabStateFromRow(id, rows[id])];
        i := i + 1;
      }
      forall id | id in rows ensures DecodableRow(rows[id]) { KeyListed(rows, ids, id); }
      assert tabs == LoadTabsSpec(rows);
    }

    /** The query for the tabs of a window: their ids by position, then by id. */
    static method DisplayOrder(rows: map<int, TabRow>) returns (ids: seq<int>)
      ensures ids == OrderedKeys(TabPositions(rows))
      ensures forall i | 0 <= i < |ids| :: ids[i] in rows
    {
      ids := OrderBy(TabPositions(rows));
      OrderedUnique(ids, OrderedKeys(TabPositions(rows)), TabPositions(rows));
      OrderedIn(ids, TabPositions(rows));
    }
  }

  lemma OneUndecodable(t: Tables, id: int)
    requires id in t
    ensures DecodableTables(t) ==> Decodable(t[id].tabs)
  {}

  lemma KeyListed(rows: map<int, TabRow>, ids: seq<int>, id: int)
    requires ids == OrderedKeys(TabPositions(rows)) && id in rows
    ensures exists i :: 0 <= i < |ids| && ids[i] == id
  {
    assert id in ids;
  }

  lemma LoadedAll(t: Tables, ids: seq<int>, windows: Snapshot)
    requires ids == OrderedKeys(WindowPositions(t)) && |windows| == |ids| && forall i | 0 <= i < |ids| :: ids[i] in t
    requires forall i | 0 <= i < |ids| :: Decodable(t[ids[i]].tabs) && windows[i] == LoadWindow(ids[i], t[ids[i]])
    ensures DecodableTables(t) && windows == LoadSpec(t)
  {
    hide LoadTabsSpec, FirstIndex, Decodable, LoadWindow;
    forall id | id in t ensures Decodable(t[id].tabs) {
      assert id in ids;
      var i :| 0 <= i < |ids| && ids[i] == id;
    }
    assert windows == LoadSpec(t);
  }
}
