/** The window object: saving and loading as they change it. */
module FulgurWindow {
  import opened Common
  import opened SessionModel
  import opened SessionTabs
  import opened PreviewTabs

  class Fulgur {
    const env: Env
    const persistUnsaved: bool
    const previews: bool
    const persistentWindowId: int
    var bounds: WindowBounds
    var tabs: seq<Tab>
    var activeTabId: Option<nat>
    var nextTabId: nat
    var pendingRemoteRestore: set<nat>
    var inflightRemoteRestore: set<nat>
    var tailedLogs: set<nat>

    constructor (env: Env, persistUnsaved: bool, previews: bool, persistentWindowId: int, bounds: WindowBounds)
      ensures this.env == env && this.persistUnsaved == persistUnsaved && this.previews == previews
      ensures this.persistentWindowId == persistentWindowId && this.bounds == bounds && tabs == []
      ensures activeTabId == None && nextTabId == 0 && pendingRemoteRestore == inflightRemoteRestore == tailedLogs == {}
    {
      this.env, this.persistUnsaved, this.previews, this.persistentWindowId, this.bounds :=
        env, persistUnsaved, previews, persistentWindowId, bounds;
      tabs, activeTabId, nextTabId, pendingRemoteRestore, inflightRemoteRestore := [], None, 0, {}, {};
      tailedLogs := {};
    }

    /** Builds the persisted form of every tab that is persisted. */
    method BuildTabStates(disk: Disk) returns (states: seq<TabState>)
      ensures states == SavedStates(env, persistUnsaved, disk, tabs)
    {
      states := [];
      for i := 0 to |tabs|
        invariant states == SavedStates(env, persistUnsaved, disk, tabs[..i])
      {
        assert tabs[..i + 1][..i] == tabs[..i];
        if !tabs[i].Editor? { continue; }
        var tab := tabs[i].editor;
        var st;
        match tab.location {
          case Local(path) =>
            if persistUnsaved && Differs(env, tab) && !TooLarge(env, tab) {
              st := TabState(tab.id, tab.title, Some(path), Some(tab.text), disk(path).modified, None,
                             tab.logView, tab.colorTag);
            } else {
              st := TabState(tab.id, tab.title, Some(path), None, None, None, tab.logView, tab.colorTag);
            }
          case Remote(spec) =>
            var text := if persistUnsaved && Differs(env, tab) && !TooLarge(env, tab) then Some(tab.text) else None;
            st := TabState(tab.id, tab.title, None, text, None, Some(spec), tab.logView, tab.colorTag);
          case Untitled =>
            if !persistUnsaved { continue; }
            if TooLarge(env, tab) { continue; }
            if tab.text == "" && StartsWith(tab.title, UNTITLED) { continue; }
            st := TabState(tab.id, tab.title, None, Some(tab.text), None, None, tab.logView, tab.colorTag);
        }
        assert StateOfEditor(env, persistUnsaved, disk, tab) == Some(st);
        states := states + [st];
      }
      assert tabs[..|tabs|] == tabs;
    }

    /** Index of the active tab among all editor tabs; a preview stands for its source. */
    method ActiveEditorIndexForState() returns (index: Option<nat>)
      ensures index == ActiveEditorIndex(tabs, activeTabId)
    {
      if activeTabId.None? { return None; }
      var active := FindTab(tabs, activeTabId.value);
      if active.None? { return None; }
      var editorId;
      match active.value {
        case Editor(tab) => editorId := tab.id;
        case MarkdownPreview(_, source) => editorId := source;
        case Settings(_) => return None;
      }
      index := None;
      var editorIndex := 0;
      for i := 0 to |tabs|
        invariant editorIndex == |Editors(tabs[..i])|
        invariant EditorPosition(tabs[..i], editorId).None?
      {
        assert tabs[..i + 1][..i] == tabs[..i];
        if tabs[i].Editor? {
          if tabs[i].editor.id == editorId {
            PositionStays(tabs, i + 1, editorId);
            return Some(editorIndex);
          }
          editorIndex := editorIndex + 1;
        }
      }
      assert tabs[..|tabs|] == tabs;
    }

    /** The persisted form of the window. */
    method BuildWindowState(disk: Disk) returns (w: WindowState)
      ensures w == WindowStateOf(env, persistUnsaved, disk, persistentWindowId, tabs, activeTabId, bounds)
    {
      var states := BuildTabStates(disk);
      var active := ActiveEditorIndexForState();
      return WindowState(persistentWindowId, states, active, bounds);
    }

    /** Clears the tabs and restores the persisted ones under their own identities. */
    method RefillTabs(states: seq<TabState>, disk: Disk) returns (highest: nat)
      modifies `tabs, `pendingRemoteRestore, `inflightRemoteRestore
      ensures tabs == AsTabs(RestoredTabs(env, disk, states))
      ensures highest == HighestTabId(env, disk, states)
      ensures pendingRemoteRestore == RemoteIds(RestoredTabs(env, disk, states)) && inflightRemoteRestore == {}
    {
      hide RestoreTab, RemoteIds;
      tabs, pendingRemoteRestore, inflightRemoteRestore := [], {}, {};
      assert RemoteIds([]) == {} by { RemoteNone(); }
      highest := 0;
      for i := 0 to |states|
        invariant tabs == AsTabs(RestoredTabs(env, disk, states[..i]))
        invariant highest == HighestTabId(env, disk, states[..i])
        invariant pendingRemoteRestore == RemoteIds(RestoredTabs(env, disk, states[..i]))
        invariant inflightRemoteRestore == {}
      {
        assert states[..i + 1][..i] == states[..i];
        var tab := RestoreTab(env, disk, states[i]);
        if tab.Some? {
          RemoteStep(RestoredTabs(env, disk, states[..i]), tab.value);
          if tab.value.location.Remote? { pendingRemoteRestore := pendingRemoteRestore + {tab.value.id}; }
          tabs := tabs + [Editor(tab.value)];
          highest := if highest < states[i].tabId then states[i].tabId else highest;
        }
      }
      assert states[..|states|] == states;
    }

    method AllocateTabId() returns (id: nat)
      modifies `nextTabId
      ensures id == old(nextTabId) && nextTabId == id + 1
    {
      id := nextTabId;
      nextTabId := nextTabId + 1;
    }

    /** Inserts a preview behind every Markdown editor, when previews have tabs and are shown. */
    method InsertPreviewTabsForMarkdown()
      modifies `tabs, `nextTabId
      ensures tabs == if previews then WithPreviews(env, old(tabs), old(nextTabId)) else old(tabs)
      ensures nextTabId == old(nextTabId) + if previews then PreviewCount(env, old(tabs)) else 0
    {
      if !previews { return; }
      hide WithPreviews, PreviewCount;
      ghost var before, next := tabs, nextTabId;
      PreviewsNone(env, next);
      var originalCount, offset := |tabs|, 0;
      for i := 0 to originalCount
        invariant offset == PreviewCount(env, before[..i]) && nextTabId == next + offset
        invariant tabs == WithPreviews(env, before[..i], next) + before[i..]
      {
        PreviewsStep(env, before, i, next, tabs);
        var at := i + offset;
        var tab := tabs[at];
        if tab.Editor? && !tab.editor.largeFile && env.isMarkdown(tab.editor) {
          var id := AllocateTabId();
          tabs := tabs[..at + 1] + [MarkdownPreview(id, tab.editor.id)] + tabs[at + 1..];
          offset := offset + 1;
        }
      }
      assert before[..originalCount] == before;
    }

    /** Starts tailing the file of a tab, if it has one. */
    method ActivateLogView(tab: EditorTab)
      modifies `tailedLogs
      ensures tailedLogs == old(tailedLogs) + if tab.location.Local? then {tab.id} else {}
    {
      if tab.location.Local? { tailedLogs := tailedLogs + {tab.id}; }
    }

    /** A log in the active tab is tailed at once. */
    method ActivateActiveLog()
      modifies `tailedLogs
      ensures tailedLogs == old(tailedLogs) + LogsToTail(tabs, activeTabId)
    {
      var shown := if activeTabId.Some? then FindTab(tabs, activeTabId.value) else None;
      if shown.Some? && shown.value.Editor? && shown.value.editor.logView { ActivateLogView(shown.value.editor); }
    }

    /** Replaces the window's tabs by those of a persisted window, if there is one. */
    method LoadState(saved: Option<WindowState>, disk: Disk)
      modifies this
      ensures bounds == old(bounds)
      ensures saved.Some? ==>
                var restored := RestoredTabs(env, disk, saved.value.tabs);
                && activeTabId == RestoredActive(saved.value.activeTabIndex, restored)
                && (restored != [] ==>
                      var index := saved.value.activeTabIndex;
                      var shown := if index.Some? && index.value < |restored| then index.value else 0;
                      activeTabId == Some(restored[shown].id))
                && pendingRemoteRestore == RemoteIds(restored) && inflightRemoteRestore == {}
      ensures saved.Some? && RestoredTabs(env, disk, saved.value.tabs) == [] ==>
                tabs == [InitialTab(env)] && nextTabId == 1 && activeTabId == Some(0)
      ensures saved.Some? && RestoredTabs(env, disk, saved.value.tabs) != [] ==>
                var editors := AsTabs(RestoredTabs(env, disk, saved.value.tabs));
                var next := NextTabId(env, disk, saved.value.tabs);
                && tabs == (if previews then WithPreviews(env, editors, next) else editors)
                && nextTabId == next + (if previews then PreviewCount(env, editors) else 0)
      ensures tailedLogs == old(tailedLogs) + if saved.Some? then LogsToTail(tabs, activeTabId) else {}
      ensures saved.None? && old(tabs) != [] ==> tabs == old(tabs) && activeTabId == old(activeTabId)
      ensures saved.None? && old(tabs) == [] ==> tabs == [InitialTab(env)] && activeTabId == Some(0)
      ensures tabs != []
    {
      hide RestoredTabs, HighestTabId, RemoteIds, WithPreviews, PreviewCount, LogsToTail;
      NoLogsYet(env);
      if saved.Some? {
        var w := saved.value;
        var highest := RefillTabs(w.tabs, disk);
        var active: Option<nat> := None;
        if w.activeTabIndex.Some? && w.activeTabIndex.value < |tabs| && tabs[w.activeTabIndex.value].Editor? {
          active := Some(tabs[w.activeTabIndex.value].editor.id);
        }
        nextTabId := if highest < U64_MAX then highest + 1 else highest;
        PreviewsNone(env, nextTabId);
        if tabs != [] { FirstStays(env, tabs, nextTabId); }
        InsertPreviewTabsForMarkdown();
        activeTabId := if active.Some? then active else if tabs != [] then Some(TabId(tabs[0])) else None;
        ActivateActiveLog();
      }
      if tabs == [] {
        tabs, activeTabId, nextTabId := [InitialTab(env)], Some(0), 1;
      }
    }
  }

  /** The tab with a given identity, if any; the first one if several. */
  function FindTab(tabs: seq<Tab>, id: nat): Option<Tab> {
    if |tabs| == 0 then None
    else if TabId(tabs[0]) == id then Some(tabs[0])
    else FindTab(tabs[1..], id)
  }

  lemma {:induction false} PositionStays(tabs: seq<Tab>, n: nat, id: nat)
    requires n <= |tabs| && EditorPosition(tabs[..n], id).Some?
    ensures EditorPosition(tabs, id) == EditorPosition(tabs[..n], id)
    decreases |tabs|
  {
    if n == |tabs| {
      assert tabs[..n] == tabs;
    } else {
      assert tabs[..|tabs| - 1][..n] == tabs[..n];
      PositionStays(tabs[..|tabs| - 1], n, id);
    }
  }

  /** The editor a window shows: an editor itself, the source of a preview, or none. */
  function ActiveEditor(tabs: seq<Tab>, activeTabId: Option<nat>): Option<nat> {
    var active := if activeTabId.Some? then FindTab(tabs, activeTabId.value) else None;
    match active
    case None => None
    case Some(Editor(tab)) => Some(tab.id)
    case Some(MarkdownPreview(_, source)) => Some(source)
    case Some(Settings(_)) => None
  }

  function ActiveEditorIndex(tabs: seq<Tab>, activeTabId: Option<nat>): Option<nat> {
    var editor := ActiveEditor(tabs, activeTabId);
    if editor.Some? then EditorPosition(tabs, editor.value) else None
  }

  function WindowStateOf(env: Env, persist: bool, disk: Disk, windowId: int, tabs: seq<Tab>,
                         activeTabId: Option<nat>, bounds: WindowBounds): WindowState {
    WindowState(windowId, SavedStates(env, persist, disk, tabs), ActiveEditorIndex(tabs, activeTabId), bounds)
  }

  function InitialTab(env: Env): Tab {
    Editor(EditorTab(0, UNTITLED, Untitled, "", env.fp(""), false, false, false, None))
  }

  function AsTabs(editors: seq<EditorTab>): (tabs: seq<Tab>)
    ensures |tabs| == |editors|
  {
    seq(|editors|, i requires 0 <= i < |editors| => Editor(editors[i]))
  }

  /** The active tab after loading: the indexed one, else the first, else the initial one. */
  function RestoredActive(index: Option<nat>, restored: seq<EditorTab>): Option<nat> {
    if restored == [] then Some(0)
    else if index.Some? && index.value < |restored| then Some(restored[index.value].id)
    else Some(restored[0].id)
  }

  function HighestTabId(env: Env, disk: Disk, states: seq<TabState>): nat {
    if |states| == 0 then 0
    else
      var front, last := HighestTabId(env, disk, states[..|states| - 1]), states[|states| - 1];
      if RestoreTab(env, disk, last).Some? && front < last.tabId then last.tabId else front
  }

  function NextTabId(env: Env, disk: Disk, states: seq<TabState>): nat {
    var highest := HighestTabId(env, disk, states);
    if highest < U64_MAX then highest + 1 else highest
  }

  ghost predicate DistinctEditors(es: seq<EditorTab>) {
    forall i, j | 0 <= i < j < |es| :: es[i].id != es[j].id
  }

  /** With distinct stored ids, every tab of the loaded window has an id of its own below the next one. */
  lemma LoadedIdsFresh(env: Env, disk: Disk, states: seq<TabState>)
    requires DistinctTabs(states) && HighestTabId(env, disk, states) < U64_MAX
    ensures var editors, next := AsTabs(RestoredTabs(env, disk, states)), NextTabId(env, disk, states);
            var all := WithPreviews(env, editors, next);
            DistinctTabIds(all) && IdsBelow(all, next + PreviewCount(env, editors))
  {
    hide RestoredTabs, RestoreTab, HighestTabId;
    HighestBounds(env, disk, states);
    RestoredIds(env, disk, states);
    PreviewIdsFresh(env, AsTabs(RestoredTabs(env, disk, states)), NextTabId(env, disk, states));
  }

  lemma {:induction false} HighestBounds(env: Env, disk: Disk, states: seq<TabState>)
    ensures forall k | 0 <= k < |RestoredTabs(env, disk, states)| ::
              RestoredTabs(env, disk, states)[k].id <= HighestTabId(env, disk, states)
  {
    if |states| > 0 {
      HighestBounds(env, disk, states[..|states| - 1]);
      RestoreKeepsId(env, disk, states[|states| - 1]);
      hide RestoreTab;
    }
  }

  /** The next id is the least one above all restored ids, unless the largest id is taken: then it is that one. */
  lemma NextIdIsLeast(env: Env, disk: Disk, states: seq<TabState>)
    ensures var es, next := RestoredTabs(env, disk, states), NextTabId(env, disk, states);
            if exists k :: 0 <= k < |es| && es[k].id >= U64_MAX then
              && (forall k | 0 <= k < |es| :: es[k].id <= next)
              && exists k :: 0 <= k < |es| && es[k].id == next
            else
              && (forall k | 0 <= k < |es| :: es[k].id < next)
              && (next == 1 || exists k :: 0 <= k < |es| && es[k].id + 1 == next)
  {
    HighestBounds(env, disk, states);
    var k := HighestAttained(env, disk, states);
  }

  lemma {:induction false} HighestAttained(env: Env, disk: Disk, states: seq<TabState>) returns (k: nat)
    ensures var es, highest := RestoredTabs(env, disk, states), HighestTabId(env, disk, states);
            highest == 0 || (k < |es| && es[k].id == highest)
  {
    k := 0;
    if |states| > 0 {
      var front, n := states[..|states| - 1], |states| - 1;
      k := HighestAttained(env, disk, front);
      RestoreKeepsId(env, disk, states[n]);
      hide RestoreTab;
      if RestoreTab(env, disk, states[n]).Some? && HighestTabId(env, disk, front) < states[n].tabId {
        k := |RestoredTabs(env, disk, front)|;
      }
    }
  }

  /** Every restored tab carries the id of a persisted one. */
  lemma {:induction false} RestoredFrom(env: Env, disk: Disk, states: seq<TabState>, k: nat)
    requires k < |RestoredTabs(env, disk, states)|
    ensures exists i :: 0 <= i < |states| && states[i].tabId == RestoredTabs(env, disk, states)[k].id
  {
    hide RestoreTab;
    var front, n := states[..|states| - 1], |states| - 1;
    RestoreKeepsId(env, disk, states[n]);
    if k < |RestoredTabs(env, disk, front)| {
      RestoredFrom(env, disk, front, k);
      var i :| 0 <= i < |front| && front[i].tabId == RestoredTabs(env, disk, front)[k].id;
      assert states[i] == front[i];
    } else {
      assert states[n].tabId == RestoredTabs(env, disk, states)[k].id;
    }
  }

  lemma {:induction false} RestoredIds(env: Env, disk: Disk, states: seq<TabState>)
    requires DistinctTabs(states)
    ensures DistinctEditors(RestoredTabs(env, disk, states))
  {
    if |states| > 0 {
      hide RestoreTab;
      var front, n := states[..|states| - 1], |states| - 1;
      RestoredIds(env, disk, front);
      RestoreKeepsId(env, disk, states[n]);
      var es := RestoredTabs(env, disk, front);
      forall k | 0 <= k < |es| ensures es[k].id != states[n].tabId {
        RestoredFrom(env, disk, front, k);
        var i :| 0 <= i < |front| && front[i].tabId == es[k].id;
        assert states[i] == front[i];
      }
    }
  }

  lemma RestoreKeepsId(env: Env, disk: Disk, st: TabState)
    ensures RestoreTab(env, disk, st).Some? ==> RestoreTab(env, disk, st).value.id == st.tabId
  {}

  /** The active tab, if it is a log shown from a file. */
  function LogsToTail(tabs: seq<Tab>, activeTabId: Option<nat>): set<nat> {
    var shown := if activeTabId.Some? then FindTab(tabs, activeTabId.value) else None;
    if shown.Some? && shown.value.Editor? && shown.value.editor.logView && shown.value.editor.location.Local?
    then {shown.value.editor.id} else {}
  }

  lemma NoLogsYet(env: Env)
    ensures LogsToTail([], None) == {} && LogsToTail([InitialTab(env)], Some(0)) == {}
  {}

  function RemoteIds(editors: seq<EditorTab>): set<nat> {
    set k | 0 <= k < |editors| && editors[k].location.Remote? :: editors[k].id
  }

  lemma RemoteNone()
    ensures RemoteIds([]) == {}
  {}

  lemma RemoteStep(editors: seq<EditorTab>, tab: EditorTab)
    ensures RemoteIds(editors + [tab]) == RemoteIds(editors) + if tab.location.Remote? then {tab.id} else {}
  {
    var more := editors + [tab];
    assert more[|editors|] == tab;
    forall id | id in RemoteIds(editors) ensures id in RemoteIds(more) {
      var k :| 0 <= k < |editors| && editors[k].location.Remote? && editors[k].id == id;
      assert more[k] == editors[k];
    }
  }
}
