/** The in-memory session snapshot that the store persists and reads back. */
module SessionModel {
  import opened Common

  /** Persisted location of an SSH/SFTP tab; `port` is a 16-bit value. */
  datatype RemoteSpec = RemoteSpec(host: string, port: nat, user: string, path: string)

  /** Geometry is compared for equality only, so finite floats are read as reals. */
  datatype WindowBounds = WindowBounds(
    state: string, x: real, y: real, width: real, height: real, displayId: Option<nat>)

  datatype TabState = TabState(
    tabId: nat,
    title: string,
    filePath: Option<string>,
    content: Option<string>,
    lastSaved: Option<string>,
    remote: Option<RemoteSpec>,
    logView: bool,
    colorTag: Option<string>)

  datatype WindowState = WindowState(
    windowId: int,
    tabs: seq<TabState>,
    activeTabIndex: Option<nat>,
    bounds: WindowBounds)

  /** Every open window, in restore order. */
  type Snapshot = seq<WindowState>

  /** Identities of the first `n` tabs. */
  function SeenTabs(tabs: seq<TabState>, n: nat): (ids: set<int>)
    requires n <= |tabs|
  {
    set i | 0 <= i < n :: tabs[i].tabId
  }

  function TabIds(tabs: seq<TabState>): (ids: set<int>) {
    SeenTabs(tabs, |tabs|)
  }

  /** Identities of the first `n` windows. */
  function SeenWindows(s: Snapshot, n: nat): (ids: set<int>)
    requires n <= |s|
  {
    set i | 0 <= i < n :: s[i].windowId
  }

  function WindowIds(s: Snapshot): (ids: set<int>) {
    SeenWindows(s, |s|)
  }

  ghost predicate IsLast(tabs: seq<TabState>, n: nat, id: int, i: int)
    requires n <= |tabs|
  {
    0 <= i < n && tabs[i].tabId == id && forall j | i < j < n :: tabs[j].tabId != id
  }

  lemma {:induction false} LastExists(tabs: seq<TabState>, n: nat, id: int)
    requires n <= |tabs| && id in SeenTabs(tabs, n)
    ensures exists i :: IsLast(tabs, n, id, i)
  {
    if tabs[n - 1].tabId == id {
      assert IsLast(tabs, n, id, n - 1);
    } else {
      LastExists(tabs, n - 1, id);
      var i :| IsLast(tabs, n - 1, id, i);
      assert IsLast(tabs, n, id, i);
    }
  }

  /** Position of the last of the first `n` tabs with a given identity. */
  ghost function LastIndex(tabs: seq<TabState>, n: nat, id: int): (i: nat)
    requires n <= |tabs| && id in SeenTabs(tabs, n)
    ensures IsLast(tabs, n, id, i)
  {
    LastExists(tabs, n, id);
    var i :| IsLast(tabs, n, id, i);
    i
  }

  /** Position of a window with a given identity. */
  ghost function WindowAt(s: Snapshot, id: int): (i: nat)
    requires id in WindowIds(s)
    ensures i < |s| && s[i].windowId == id
  {
    var i :| 0 <= i < |s| && s[i].windowId == id;
    i
  }

  /** Tab identity is unique within its window. */
  ghost predicate DistinctTabs(tabs: seq<TabState>) {
    forall i, j | 0 <= i < j < |tabs| :: tabs[i].tabId != tabs[j].tabId
  }

  ghost predicate DistinctWindows(s: Snapshot) {
    forall i, j | 0 <= i < j < |s| :: s[i].windowId != s[j].windowId
  }

  /** Window identity is unique in the snapshot, tab identity in each window. */
  ghost predicate DistinctIds(s: Snapshot) {
    DistinctWindows(s) && forall i | 0 <= i < |s| :: DistinctTabs(s[i].tabs)
  }
}
