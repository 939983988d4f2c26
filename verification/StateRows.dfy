/**
 The rows of the session database and, as functions of those rows, what one
 reconciliation of a snapshot leaves behind.

 `Tables` nests the tab rows in their window row. The composite key
 (window id, tab id), the reference from tabs to windows and the cascading
 delete of the schema are properties of that shape.
 */
module StateRows {
  import opened Common
  import opened SessionModel

  /** The persisted identity of a buffer. */
  datatype Fingerprint = Fingerprint(hash: U64, len: nat)

  /** Content hashing is a parameter: nothing below depends on which hash it is. */
  type Hasher = string -> Fingerprint

  datatype StoredTab = StoredTab(
    position: int,
    title: string,
    filePath: Option<string>,
    lastSaved: Option<string>,
    logView: bool,
    colorTag: Option<string>,
    remoteHost: Option<string>,
    remotePort: Option<nat>,
    remoteUser: Option<string>,
    remotePath: Option<string>)

  datatype StoredWindow = StoredWindow(position: int, activeTabId: Option<int>, bounds: WindowBounds)

  /** `hash` and `len` are the two nullable fingerprint columns. */
  datatype TabRow = TabRow(stored: StoredTab, content: Option<string>, hash: Option<int>, len: Option<int>)

  datatype WindowRows = WindowRows(window: StoredWindow, tabs: map<int, TabRow>)

  type Tables = map<int, WindowRows>

  /** The six kinds of row operation the store counts. */
  datatype RowWrite =
    | WindowWritten | WindowDeleted | TabInserted | TabMetadataUpdated | TabContentWritten | TabDeleted

  /** How often each kind of row operation ran; `stats[k]` is the counter of kind `k`. */
  type ApplyStats = multiset<RowWrite>

  const NoStats: ApplyStats := multiset{}

  function Times(kind: RowWrite, n: nat): ApplyStats {
    multiset{}[kind := n]
  }

  function SumOf(parts: seq<ApplyStats>): ApplyStats {
    if |parts| == 0 then NoStats else SumOf(parts[..|parts| - 1]) + parts[|parts| - 1]
  }

  /******* Columns *******/

  /** Reinterpretation of a 64-bit hash as the signed integer of its column. */
  function CastSigned(hash: U64): I64 {
    if hash <= I64_MAX then hash else hash - U64_MAX - 1
  }

  function CastUnsigned(column: I64): U64 {
    if 0 <= column then column else column + U64_MAX + 1
  }

  function FingerprintOf(fp: Hasher, content: Option<string>): Option<Fingerprint> {
    match content
    case None => None
    case Some(text) => Some(fp(text))
  }

  function HashColumn(fingerprint: Option<Fingerprint>): Option<int> {
    if fingerprint.Some? then Some(CastSigned(fingerprint.value.hash)) else None
  }

  function LenColumn(fingerprint: Option<Fingerprint>): Option<int> {
    if fingerprint.Some? then Some(fingerprint.value.len) else None
  }

  /** Decodes the fingerprint columns; anything but two usable values is no fingerprint. */
  function StoredFingerprint(row: TabRow): Option<Fingerprint> {
    if row.hash.Some? && row.len.Some? && 0 <= row.len.value && I64_MIN <= row.hash.value <= I64_MAX
    then Some(Fingerprint(CastUnsigned(row.hash.value), row.len.value))
    else None
  }

  function StoredTabFromSnapshot(tab: TabState, position: int): StoredTab {
    StoredTab(position, tab.title, tab.filePath, tab.lastSaved, tab.logView, tab.colorTag,
              if tab.remote.Some? then Some(tab.remote.value.host) else None,
              if tab.remote.Some? then Some(tab.remote.value.port) else None,
              if tab.remote.Some? then Some(tab.remote.value.user) else None,
              if tab.remote.Some? then Some(tab.remote.value.path) else None)
  }

  /** The active tab is stored by identity; an index past the tabs stores nothing. */
  function ActiveTabId(w: WindowState): Option<int> {
    if w.activeTabIndex.Some? && w.activeTabIndex.value < |w.tabs|
    then Some(w.tabs[w.activeTabIndex.value].tabId)
    else None
  }

  function StoredWindowFromSnapshot(w: WindowState, position: int): StoredWindow {
    StoredWindow(position, ActiveTabId(w), w.bounds)
  }

  /** A row holding a snapshot tab verbatim. */
  function FreshRow(fp: Hasher, tab: TabState, position: int): TabRow {
    var fingerprint := FingerprintOf(fp, tab.content);
    TabRow(StoredTabFromSnapshot(tab, position), tab.content, HashColumn(fingerprint), LenColumn(fingerprint))
  }

  /** A verbatim copy of a snapshot window. */
  ghost function FreshRows(fp: Hasher, w: WindowState, position: int): WindowRows {
    WindowRows(StoredWindowFromSnapshot(w, position),
               map id | id in TabIds(w.tabs) ::
                 FreshRow(fp, w.tabs[LastIndex(w.tabs, |w.tabs|, id)], LastIndex(w.tabs, |w.tabs|, id)))
  }

  function WithTabs(t: Tables, windowId: int, tabs: map<int, TabRow>): Tables
    requires windowId in t
  {
    t[windowId := t[windowId].(tabs := tabs)]
  }

  /******* Row invariants *******/

  ghost predicate ValidRow(fp: Hasher, row: TabRow) {
    && row.hash == HashColumn(FingerprintOf(fp, row.content))
    && row.len == LenColumn(FingerprintOf(fp, row.content))
    && (row.len.Some? ==> row.len.value <= I64_MAX)
    && (row.stored.remoteHost.Some? <==> row.stored.remotePort.Some?)
    && (row.stored.remoteHost.Some? <==> row.stored.remoteUser.Some?)
    && (row.stored.remoteHost.Some? <==> row.stored.remotePath.Some?)
  }

  ghost predicate ValidTabRows(fp: Hasher, rows: map<int, TabRow>) {
    && (forall id | id in rows :: 0 <= id <= I64_MAX)
    && (forall id | id in rows :: ValidRow(fp, rows[id]))
  }

  /** Fingerprint columns describe the stored text; tab ids come from unsigned ids. */
  ghost predicate ValidTables(fp: Hasher, t: Tables) {
    forall id | id in t :: ValidTabRows(fp, t[id].tabs)
  }

  predicate FittingRow(row: TabRow) {
    row.len.Some? ==> row.len.value <= I64_MAX
  }

  ghost predicate FittingRows(rows: map<int, TabRow>) {
    forall id | id in rows :: id <= I64_MAX && FittingRow(rows[id])
  }

  /** Whatever wrote the rows, their columns hold signed 64-bit integers. */
  ghost predicate FittingTables(t: Tables) {
    forall id | id in t :: FittingRows(t[id].tabs)
  }

  /******* What the snapshot must fit into *******/

  ghost predicate EncodableTab(fp: Hasher, tab: TabState) {
    tab.tabId <= I64_MAX && (tab.content.Some? ==> fp(tab.content.value).len <= I64_MAX)
  }

  ghost predicate EncodableTabsPrefix(fp: Hasher, tabs: seq<TabState>, n: nat)
    requires n <= |tabs|
  {
    forall i | 0 <= i < n :: EncodableTab(fp, tabs[i])
  }

  ghost predicate EncodableTabs(fp: Hasher, tabs: seq<TabState>) {
    |tabs| <= I64_MAX + 1 && EncodableTabsPrefix(fp, tabs, |tabs|)
  }

  ghost predicate EncodablePrefix(fp: Hasher, s: Snapshot, n: nat)
    requires n <= |s|
  {
    forall i | 0 <= i < n :: EncodableTabs(fp, s[i].tabs)
  }

  /** Ids, lengths and positions fit a signed 64-bit column. */
  ghost predicate Encodable(fp: Hasher, s: Snapshot) {
    |s| <= I64_MAX + 1 && EncodablePrefix(fp, s, |s|)
  }

  /******* One reconciliation as a function *******/

  /** The stored row a tab is compared with: gone once its id has been visited. */
  function StoredRow(prior: map<int, TabRow>, tabs: seq<TabState>, i: nat): Option<TabRow>
    requires i < |tabs|
  {
    var id := tabs[i].tabId;
    if id in prior && id !in SeenTabs(tabs, i) then Some(prior[id]) else None
  }

  /** The row left for one tab: buffer text is rewritten only for a new fingerprint. */
  function Reconcile(fp: Hasher, tab: TabState, position: int, stored: Option<TabRow>): TabRow {
    if stored.None? || StoredFingerprint(stored.value) != FingerprintOf(fp, tab.content)
    then FreshRow(fp, tab, position)
    else stored.value.(stored := StoredTabFromSnapshot(tab, position))
  }

  function TabWrites(fp: Hasher, tab: TabState, position: int, stored: Option<TabRow>): ApplyStats {
    if stored.None? then multiset{TabInserted}
    else if StoredFingerprint(stored.value) != FingerprintOf(fp, tab.content) then multiset{TabContentWritten}
    else if stored.value.stored != StoredTabFromSnapshot(tab, position) then multiset{TabMetadataUpdated}
    else NoStats
  }

  /** Tab rows after the first `n` tabs have been visited: the last visit of an identity decides. */
  ghost function TabsAfter(fp: Hasher, prior: map<int, TabRow>, tabs: seq<TabState>, n: nat): map<int, TabRow>
    requires n <= |tabs|
  {
    map id | id in prior.Keys + SeenTabs(tabs, n) ::
      if id in SeenTabs(tabs, n) then VisitedRow(fp, prior, tabs, LastIndex(tabs, n, id)) else prior[id]
  }

  function VisitedRow(fp: Hasher, prior: map<int, TabRow>, tabs: seq<TabState>, i: nat): TabRow
    requires i < |tabs|
  {
    Reconcile(fp, tabs[i], i, StoredRow(prior, tabs, i))
  }

  /** What each of the first `n` tabs writes. */
  function TabParts(fp: Hasher, prior: map<int, TabRow>, tabs: seq<TabState>, n: nat): (parts: seq<ApplyStats>)
    requires n <= |tabs|
    ensures |parts| == n
  {
    seq(n, i requires 0 <= i < n => TabWrites(fp, tabs[i], i, StoredRow(prior, tabs, i)))
  }

  /** Stored tabs the snapshot no longer holds; a negative key is invisible to the reader. */
  function ClosedTabs(prior: map<int, TabRow>, tabs: seq<TabState>): set<int> {
    set id | id in prior && 0 <= id && id !in TabIds(tabs)
  }

  ghost function ReconcileTabs(fp: Hasher, prior: map<int, TabRow>, tabs: seq<TabState>): map<int, TabRow> {
    TabsAfter(fp, prior, tabs, |tabs|) - ClosedTabs(prior, tabs)
  }

  function ReconcileTabsStats(fp: Hasher, prior: map<int, TabRow>, tabs: seq<TabState>): ApplyStats {
    SumOf(TabParts(fp, prior, tabs, |tabs|)) + Times(TabDeleted, |ClosedTabs(prior, tabs)|)
  }

  function TabsOf(t: Tables, id: int): map<int, TabRow> {
    if id in t then t[id].tabs else map[]
  }

  ghost function ReconcileWindow(fp: Hasher, t: Tables, w: WindowState, position: int): WindowRows {
    WindowRows(StoredWindowFromSnapshot(w, position), ReconcileTabs(fp, TabsOf(t, w.windowId), w.tabs))
  }

  function WindowWrites(t: Tables, w: WindowState, position: int): ApplyStats {
    if w.windowId in t && t[w.windowId].window == StoredWindowFromSnapshot(w, position)
    then NoStats
    else multiset{WindowWritten}
  }

  function ReconcileWindowStats(fp: Hasher, t: Tables, w: WindowState, position: int): ApplyStats {
    WindowWrites(t, w, position) + ReconcileTabsStats(fp, TabsOf(t, w.windowId), w.tabs)
  }

  /** Tables after the first `n` windows have been visited one after another. */
  ghost function VisitWindows(fp: Hasher, t: Tables, s: Snapshot, n: nat): Tables
    requires n <= |s|
  {
    if n == 0 then t
    else
      var u := VisitWindows(fp, t, s, n - 1);
      u[s[n - 1].windowId := ReconcileWindow(fp, u, s[n - 1], n - 1)]
  }

  /** What the first `n` windows write, each finding what the ones before it left. */
  ghost function VisitWrites(fp: Hasher, t: Tables, s: Snapshot, n: nat): ApplyStats
    requires n <= |s|
  {
    if n == 0 then NoStats
    else VisitWrites(fp, t, s, n - 1) + ReconcileWindowStats(fp, VisitWindows(fp, t, s, n - 1), s[n - 1], n - 1)
  }

  /** The tables one committed reconciliation leaves, window ids repeated or not. */
  ghost function ApplyInOrder(fp: Hasher, t: Tables, owned: set<int>, s: Snapshot): Tables {
    VisitWindows(fp, t, s, |s|) - (owned - WindowIds(s))
  }

  ghost function InOrderWrites(fp: Hasher, t: Tables, owned: set<int>, s: Snapshot): ApplyStats {
    VisitWrites(fp, t, s, |s|) + Times(WindowDeleted, |DeletedWindows(t, owned, s)|)
  }

  /** Tables after the first `n` windows have been visited, for distinct window identities. */
  ghost function WindowsAfter(fp: Hasher, t: Tables, s: Snapshot, n: nat): Tables
    requires n <= |s|
  {
    map id | id in t.Keys + SeenWindows(s, n) ::
      if id in SeenWindows(s, n) then VisitedWindow(fp, t, s, id) else t[id]
  }

  ghost function VisitedWindow(fp: Hasher, t: Tables, s: Snapshot, id: int): WindowRows
    requires id in WindowIds(s)
  {
    ReconcileWindow(fp, t, s[WindowAt(s, id)], WindowAt(s, id))
  }

  /** What each of the first `n` windows writes. */
  function WindowParts(fp: Hasher, t: Tables, s: Snapshot, n: nat): (parts: seq<ApplyStats>)
    requires n <= |s|
    ensures |parts| == n
  {
    seq(n, i requires 0 <= i < n => ReconcileWindowStats(fp, t, s[i], i))
  }

  /** The same for distinct window ids, each row read off the rows at the start. */
  ghost function Apply(fp: Hasher, t: Tables, owned: set<int>, s: Snapshot): Tables {
    WindowsAfter(fp, t, s, |s|) - (owned - WindowIds(s))
  }

  function DeletedWindows(t: Tables, owned: set<int>, s: Snapshot): set<int> {
    t.Keys * owned - WindowIds(s)
  }

  function ApplyWrites(fp: Hasher, t: Tables, owned: set<int>, s: Snapshot): ApplyStats {
    SumOf(WindowParts(fp, t, s, |s|)) + Times(WindowDeleted, |DeletedWindows(t, owned, s)|)
  }
}
