/** The session that a set of rows denotes, ordered by position and then by id. */
module RowOrder {
  import opened Common
  import opened Ordering
  import opened SessionModel
  import opened StateRows

  function WindowPositions(t: Tables): map<int, int> {
    map id | id in t :: t[id].window.position
  }

  function TabPositions(rows: map<int, TabRow>): map<int, int> {
    map id | id in rows :: rows[id].stored.position
  }

  function Default(s: Option<string>): string {
    if s.Some? then s.value else ""
  }

  /** A remote host needs a port to be read back. */
  predicate DecodableRow(row: TabRow) {
    row.stored.remoteHost.Some? ==> row.stored.remotePort.Some?
  }

  /** An id stored below zero reads back as zero. */
  function TabStateFromRow(id: int, row: TabRow): TabState
    requires DecodableRow(row)
  {
    var st := row.stored;
    TabState(
      if 0 <= id then id else 0, st.title, st.filePath, row.content, st.lastSaved,
      if st.remoteHost.Some?
      then Some(RemoteSpec(st.remoteHost.value, st.remotePort.value, Default(st.remoteUser), Default(st.remotePath)))
      else None,
      st.logView, st.colorTag)
  }

  /** How one row reads: its columns as they are, an id below zero as zero, a missing user or path as empty. */
  lemma RowMeans(id: int, row: TabRow)
    requires DecodableRow(row)
    ensures var tab, st := TabStateFromRow(id, row), row.stored;
            && tab.tabId == (if id < 0 then 0 else id) && tab.title == st.title && tab.filePath == st.filePath
            && tab.content == row.content && tab.lastSaved == st.lastSaved
            && tab.logView == st.logView && tab.colorTag == st.colorTag
            && (tab.remote.Some? <==> st.remoteHost.Some?)
            && (tab.remote.Some? ==>
                  && Some(tab.remote.value.host) == st.remoteHost && Some(tab.remote.value.port) == st.remotePort
                  && (st.remoteUser.Some? ==> tab.remote.value.user == st.remoteUser.value)
                  && (st.remotePath.Some? ==> tab.remote.value.path == st.remotePath.value)
                  && (st.remoteUser.None? ==> tab.remote.value.user == "")
                  && (st.remotePath.None? ==> tab.remote.value.path == ""))
  {}

  ghost predicate Decodable(rows: map<int, TabRow>) {
    forall id | id in rows :: DecodableRow(rows[id])
  }

  ghost function LoadTabsSpec(rows: map<int, TabRow>): (tabs: seq<TabState>)
    requires Decodable(rows)
  {
    var ids := OrderedKeys(TabPositions(rows));
    seq(|ids|, i requires 0 <= i < |ids| => assert ids[i] in ids; TabStateFromRow(ids[i], rows[ids[i]]))
  }

  ghost predicate IsFirst(tabs: seq<TabState>, id: int, i: int) {
    0 <= i < |tabs| && tabs[i].tabId == id && forall j | 0 <= j < i :: tabs[j].tabId != id
  }

  /** Index of the first tab with a given identity. */
  ghost function FirstIndex(tabs: seq<TabState>, id: int): Option<nat> {
    if exists i :: IsFirst(tabs, id, i) then
      var i :| IsFirst(tabs, id, i);
      Some(i)
    else None
  }

  lemma FirstIndexIs(tabs: seq<TabState>, id: int, k: nat)
    requires k <= |tabs| && (forall j | 0 <= j < k :: tabs[j].tabId != id)
    requires k < |tabs| ==> tabs[k].tabId == id
    ensures FirstIndex(tabs, id) == if k < |tabs| then Some(k) else None
  {
    if k < |tabs| {
      assert IsFirst(tabs, id, k);
      var first := FirstIndex(tabs, id);
      assert first.Some? && IsFirst(tabs, id, first.value);
      assert tabs[first.value].tabId == id && tabs[k].tabId == id;
    }
  }

  ghost function LoadWindow(id: int, rows: WindowRows): (w: WindowState)
    requires Decodable(rows.tabs)
    ensures w.windowId == id
  {
    var tabs := LoadTabsSpec(rows.tabs);
    WindowState(id, tabs,
                if rows.window.activeTabId.Some? && 0 <= rows.window.activeTabId.value
                then FirstIndex(tabs, rows.window.activeTabId.value) else None,
                rows.window.bounds)
  }

  ghost predicate DecodableTables(t: Tables) {
    forall id | id in t :: Decodable(t[id].tabs)
  }

  ghost function LoadIds(t: Tables, ids: seq<int>): (s: Snapshot)
    requires DecodableTables(t) && forall id | id in ids :: id in t
    ensures |s| == |ids|
    ensures forall i | 0 <= i < |ids| :: s[i] == LoadWindow(ids[i], t[ids[i]])
  {
    seq(|ids|, i requires 0 <= i < |ids| => assert ids[i] in ids; LoadWindow(ids[i], t[ids[i]]))
  }

  /** The snapshot a database holds. */
  ghost function LoadSpec(t: Tables): Snapshot
    requires DecodableTables(t)
  {
    LoadIds(t, OrderedKeys(WindowPositions(t)))
  }
}
