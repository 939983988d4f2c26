/** What a snapshot holds of each tab and what each persisted tab becomes, attribute by attribute. */
module SessionFacts {
  import opened Common
  import opened SessionModel
  import opened StateRows
  import opened SessionTabs
  import opened FulgurWindow

  /******* Saving *******/

  /** The editor's text fits into a snapshot: no more than 50 megabytes, now and when it was opened. */
  predicate Fits(env: Env, e: EditorTab) {
    !e.largeFile && env.fp(e.text).len <= 50 * 1024 * 1024
  }

  /** Untitled editors are left out when unsaved text is not kept, does not fit, or is blank under the default name. */
  predicate Persisted(env: Env, persist: bool, e: EditorTab) {
    e.location.Untitled? ==> persist && Fits(env, e) && (e.text != "" || !("Untitled" <= e.title))
  }

  /** Unsaved text is what an untitled editor holds, and what differs from the text a file was opened with. */
  predicate Unsaved(env: Env, e: EditorTab) {
    e.location.Untitled? || env.fp(e.text) != e.original
  }

  /** `st` is the editor as it is persisted, its text included when it is unsaved, kept and fits. */
  predicate Holds(env: Env, persist: bool, disk: Disk, e: EditorTab, st: TabState) {
    && st.tabId == e.id && st.title == e.title && st.logView == e.logView && st.colorTag == e.colorTag
    && st.filePath == (if e.location.Local? then Some(e.location.path) else None)
    && st.remote == (if e.location.Remote? then Some(e.location.spec) else None)
    && st.content == (if persist && Fits(env, e) && Unsaved(env, e) then Some(e.text) else None)
    && st.lastSaved == (if st.content.Some? && e.location.Local? then disk(e.location.path).modified else None)
  }

  /** One editor: whether it is persisted at all, and as what. */
  lemma SavedAs(env: Env, persist: bool, disk: Disk, e: EditorTab)
    ensures StateOfEditor(env, persist, disk, e).Some? <==> Persisted(env, persist, e)
    ensures Persisted(env, persist, e) ==> Holds(env, persist, disk, e, StateOfEditor(env, persist, disk, e).value)
  {
    assert env.fp(e.text) == e.original
        <==> env.fp(e.text).hash == e.original.hash && env.fp(e.text).len == e.original.len;
  }

  /**
   The snapshot lists exactly the persisted editors, in display order, each with its
   attributes: its text exactly when it is unsaved, kept and fits.
   */
  lemma {:induction false} SnapshotHolds(env: Env, persist: bool, disk: Disk, tabs: seq<Tab>) returns (ps: seq<nat>)
    ensures var states := SavedStates(env, persist, disk, tabs);
            && Increasing(ps, |tabs|) && |states| == |ps|
            && (forall p: nat | p < |tabs| :: p in ps <==> tabs[p].Editor? && Persisted(env, persist, tabs[p].editor))
            && (forall k | 0 <= k < |ps| ::
                  tabs[ps[k]].Editor? && Holds(env, persist, disk, tabs[ps[k]].editor, states[k]))
  {
    hide StateOfEditor, Persisted, Holds;
    ps := [];
    if |tabs| > 0 {
      var n, front := |tabs| - 1, tabs[..|tabs| - 1];
      var fs := SnapshotHolds(env, persist, disk, front);
      assert forall p: nat | p < n :: front[p] == tabs[p];
      IncreasingMore(fs, n);
      if tabs[n].Editor? { SavedAs(env, persist, disk, tabs[n].editor); }
      ps := if tabs[n].Editor? && Persisted(env, persist, tabs[n].editor) then fs + [n] else fs;
    }
  }

  /******* Restoring *******/

  /** The file of a persisted tab, if it names one. */
  function FileOf(disk: Disk, st: TabState): FileView {
    if st.filePath.Some? then disk(st.filePath.value) else FileView(false, None, false, None)
  }

  /** The file can be opened and is strictly newer than the saved text. */
  predicate Newer(env: Env, disk: Disk, st: TabState) {
    var file := FileOf(disk, st);
    && file.opens && file.modified.Some? && st.lastSaved.Some?
    && env.parseTime(file.modified.value).Some? && env.parseTime(st.lastSaved.value).Some?
    && env.parseTime(file.modified.value).value > env.parseTime(st.lastSaved.value).value
  }

  /** The text is read from the file: a file tab without saved text, or with text older than its file. */
  predicate ReadsFile(env: Env, disk: Disk, st: TabState) {
    && st.remote.None? && st.filePath.Some? && FileOf(disk, st).present
    && (st.content.None? || Newer(env, disk, st))
  }

  /** Whether the tab comes back: remote tabs always, others with saved text or a readable file. */
  predicate ComesBack(env: Env, disk: Disk, st: TabState) {
    || st.remote.Some?
    || (if ReadsFile(env, disk, st) then FileOf(disk, st).opens && FileOf(disk, st).contents.Some?
        else st.content.Some?)
  }

  /** Where it lives, under which name, with which text and which baseline. */
  predicate Restored(env: Env, disk: Disk, st: TabState, e: EditorTab) {
    var keepsPath := st.remote.None? && st.filePath.Some? && FileOf(disk, st).present;
    && e.id == st.tabId
    && e.location == (if st.remote.Some? then Remote(st.remote.value)
                      else if keepsPath then Local(st.filePath.value) else Untitled)
    && Some(e.text) == (if ReadsFile(env, disk, st) then FileOf(disk, st).contents
                        else if st.content.Some? then st.content else Some(""))
    && e.modified == (st.content.Some? && !ReadsFile(env, disk, st))
    && (st.remote.Some? ==> IsLastComponent(st.remote.value.path, e.title))
    && (keepsPath ==> e.title == env.fileName(st.filePath.value) + if e.modified then " \U{2022}" else "")
    && (e.location.Untitled? ==> e.title == st.title)
    && e.largeFile == (env.fp(e.text).len > 50 * 1024 * 1024)
    && e.original == (if e.location.Untitled? then env.fp("")
                      else if keepsPath && e.largeFile then Fingerprint(0, env.fp(e.text).len) else env.fp(e.text))
    && e.logView == (st.remote.None? && (st.logView || (keepsPath && env.opensAsLog(st.filePath.value))))
    && e.colorTag == (if st.colorTag.Some? && st.colorTag.value in env.colorKeys then st.colorTag else None)
  }

  predicate IsLastComponent(path: string, name: string) {
    '/' !in name && |name| <= |path| && path[|path| - |name|..] == name
    && (|name| < |path| ==> path[|path| - |name| - 1] == '/')
  }

  lemma LastComponentMore(front: string, name: string, c: char)
    requires IsLastComponent(front, name) && c != '/'
    ensures IsLastComponent(front + [c], name + [c])
  {
    var path := front + [c];
    assert path[|front| - |name|..] == front[|front| - |name|..] + [c];
    assert |name| < |front| ==> path[|front| - |name| - 1] == front[|front| - |name| - 1];
  }

  lemma {:induction false} RemoteNameIs(path: string)
    ensures IsLastComponent(path, RemoteName(path))
  {
    if |path| > 0 && path[|path| - 1] != '/' {
      var front := path[..|path| - 1];
      hide IsLastComponent;
      RemoteNameIs(front);
      LastComponentMore(front, RemoteName(front), path[|path| - 1]);
      assert front + [path[|path| - 1]] == path;
    }
  }

  /** One persisted tab: whether it comes back, and as what. */
  lemma RestoredAs(env: Env, disk: Disk, st: TabState)
    ensures RestoreTab(env, disk, st).Some? <==> ComesBack(env, disk, st)
    ensures ComesBack(env, disk, st) ==> Restored(env, disk, st, RestoreTab(env, disk, st).value)
  {
    if st.remote.Some? { RemoteNameIs(st.remote.value.path); }
  }

  /** The restored tabs are exactly the persisted ones that come back, in order, each with its attributes. */
  lemma {:induction false} SessionHolds(env: Env, disk: Disk, states: seq<TabState>) returns (ps: seq<nat>)
    ensures var restored := RestoredTabs(env, disk, states);
            && Increasing(ps, |states|) && |restored| == |ps|
            && (forall p: nat | p < |states| :: p in ps <==> ComesBack(env, disk, states[p]))
            && (forall k | 0 <= k < |ps| :: Restored(env, disk, states[ps[k]], restored[k]))
  {
    hide RestoreTab, ComesBack, Restored;
    ps := [];
    if |states| > 0 {
      var n, front := |states| - 1, states[..|states| - 1];
      var fs := SessionHolds(env, disk, front);
      assert forall p: nat | p < n :: front[p] == states[p];
      IncreasingMore(fs, n);
      RestoredAs(env, disk, states[n]);
      ps := if ComesBack(env, disk, states[n]) then fs + [n] else fs;
    }
  }

  /** A window without tabs starts with one empty, unmodified one, which is never persisted. */
  lemma InitialTabMeans(env: Env, persist: bool)
    ensures InitialTab(env).Editor?
    ensures var e := InitialTab(env).editor;
            && e.id == 0 && e.text == "" && e.location.Untitled? && !e.modified && !e.logView && e.colorTag.None?
            && e.title == "Untitled" && e.original == env.fp("") && !e.largeFile && !Persisted(env, persist, e)
  {}

  /** The restored tabs awaiting a reload are those persisted with a remote spec. */
  lemma AwaitingReload(env: Env, disk: Disk, states: seq<TabState>)
    ensures RemoteIds(RestoredTabs(env, disk, states))
            == set i | 0 <= i < |states| && states[i].remote.Some? :: states[i].tabId
  {
    var restored, awaited := RestoredTabs(env, disk, states), RemoteIds(RestoredTabs(env, disk, states));
    var ps := SessionHolds(env, disk, states);
    forall i | 0 <= i < |states| && states[i].remote.Some? ensures states[i].tabId in awaited {
      assert ComesBack(env, disk, states[i]);
      var p: nat := i;
      assert p in ps;
      var k :| 0 <= k < |ps| && ps[k] == p;
      assert Restored(env, disk, states[ps[k]], restored[k]);
    }
    forall id | id in awaited ensures exists i :: 0 <= i < |states| && states[i].remote.Some? && states[i].tabId == id {
      var k :| 0 <= k < |restored| && restored[k].location.Remote? && restored[k].id == id;
      assert Restored(env, disk, states[ps[k]], restored[k]);
    }
  }

  /******* The active tab *******/

  /** How many of the first `n` tabs are editors. */
  function EditorsBefore(tabs: seq<Tab>, n: nat): (count: nat)
    requires n <= |tabs|
  {
    |set i | 0 <= i < n && tabs[i].Editor?|
  }

  lemma EditorsBeforeStep(tabs: seq<Tab>, n: nat)
    requires n < |tabs|
    ensures EditorsBefore(tabs, n + 1) == EditorsBefore(tabs, n) + if tabs[n].Editor? then 1 else 0
  {
    var before, after := (set i | 0 <= i < n && tabs[i].Editor?), (set i | 0 <= i < n + 1 && tabs[i].Editor?);
    assert after == if tabs[n].Editor? then before + {n} else before;
  }

  lemma {:induction false} EditorCount(tabs: seq<Tab>, n: nat)
    requires n <= |tabs|
    ensures |Editors(tabs[..n])| == EditorsBefore(tabs, n)
  {
    if n > 0 {
      assert tabs[..n][..n - 1] == tabs[..n - 1];
      EditorCount(tabs, n - 1);
      EditorsBeforeStep(tabs, n - 1);
    }
  }

  /** The first editor with an id, counted among the editors; none if there is none. */
  lemma {:induction false} PositionMeans(tabs: seq<Tab>, id: nat)
    ensures EditorPosition(tabs, id).None? <==> forall i | 0 <= i < |tabs| && tabs[i].Editor? :: tabs[i].editor.id != id
    ensures forall i | 0 <= i < |tabs| && tabs[i].Editor? && tabs[i].editor.id == id
              && (forall j | 0 <= j < i && tabs[j].Editor? :: tabs[j].editor.id != id) ::
              EditorPosition(tabs, id) == Some(EditorsBefore(tabs, i))
  {
    if |tabs| > 0 {
      var n, front := |tabs| - 1, tabs[..|tabs| - 1];
      PositionMeans(front, id);
      assert forall i | 0 <= i < n :: front[i] == tabs[i];
      forall i | 0 <= i < n ensures EditorsBefore(front, i) == EditorsBefore(tabs, i) {
        EditorCount(front, i);
        EditorCount(tabs, i);
        assert front[..i] == tabs[..i];
      }
      EditorCount(tabs, n);
    }
  }

  /** Tab `i` is the first one with the active id. */
  ghost predicate Shown(tabs: seq<Tab>, activeTabId: Option<nat>, i: nat) {
    && i < |tabs| && activeTabId.Some? && IdAt(tabs, i) == activeTabId.value
    && forall j | 0 <= j < i :: IdAt(tabs, j) != activeTabId.value
  }

  function IdAt(tabs: seq<Tab>, i: nat): nat
    requires i < |tabs|
  {
    match tabs[i]
    case Editor(e) => e.id
    case MarkdownPreview(id, _) => id
    case Settings(id) => id
  }

  lemma {:induction false} FindMeans(tabs: seq<Tab>, id: nat)
    ensures FindTab(tabs, id).None? <==> forall i | 0 <= i < |tabs| :: IdAt(tabs, i) != id
    ensures forall i: nat | Shown(tabs, Some(id), i) :: FindTab(tabs, id) == Some(tabs[i])
  {
    if |tabs| > 0 && IdAt(tabs, 0) != id {
      var rest := tabs[1..];
      FindMeans(rest, id);
      forall i: nat | i < |rest| ensures IdAt(rest, i) == IdAt(tabs, i + 1) {}
      if forall i | 0 <= i < |rest| :: IdAt(rest, i) != id {
        forall i | 0 <= i < |tabs| ensures IdAt(tabs, i) != id {
          if i > 0 { assert IdAt(rest, i - 1) == IdAt(tabs, i); }
        }
      }
      forall i: nat | Shown(tabs, Some(id), i) ensures FindTab(tabs, id) == Some(tabs[i]) {
        ShownBehind(tabs, id, i);
      }
    }
  }

  lemma ShownBehind(tabs: seq<Tab>, id: nat, i: nat)
    requires |tabs| > 0 && IdAt(tabs, 0) != id && Shown(tabs, Some(id), i)
    ensures i > 0 && Shown(tabs[1..], Some(id), i - 1) && tabs[1..][i - 1] == tabs[i]
  {
    forall j: nat | j < i - 1 ensures IdAt(tabs[1..], j) != id { assert IdAt(tabs[1..], j) == IdAt(tabs, j + 1); }
  }

  /** Editor tab `j` is the first with an id. */
  ghost predicate FirstEditor(tabs: seq<Tab>, id: nat, j: nat) {
    && j < |tabs| && tabs[j].Editor? && tabs[j].editor.id == id
    && forall k | 0 <= k < j && tabs[k].Editor? :: tabs[k].editor.id != id
  }

  /**
   The stored index counts the editor tabs before the active editor, or before the source
   of an active preview; there is none for settings, for no active tab, or without the editor.
   */
  lemma ActiveIndexMeans(tabs: seq<Tab>, activeTabId: Option<nat>)
    ensures var index := ActiveEditorIndex(tabs, activeTabId);
            && ((forall i: nat :: !Shown(tabs, activeTabId, i)) ==> index == None)
            && (forall i: nat | Shown(tabs, activeTabId, i) && tabs[i].Settings? :: index == None)
            && (forall i: nat | Shown(tabs, activeTabId, i) && !tabs[i].Settings? ::
                  var id := if tabs[i].Editor? then tabs[i].editor.id else tabs[i].sourceTabId;
                  && ((forall j: nat :: !FirstEditor(tabs, id, j)) ==> index == None)
                  && (forall j: nat | FirstEditor(tabs, id, j) :: index == Some(EditorsBefore(tabs, j))))
  {
    if activeTabId.Some? {
      FindMeans(tabs, activeTabId.value);
      if forall i: nat :: !Shown(tabs, activeTabId, i) {
        NoneShown(tabs, activeTabId.value, |tabs|);
      }
      hide FindTab, EditorPosition, EditorsBefore;
      forall i: nat | Shown(tabs, activeTabId, i) && !tabs[i].Settings?
        ensures var id := if tabs[i].Editor? then tabs[i].editor.id else tabs[i].sourceTabId;
                ActiveEditorIndex(tabs, activeTabId) == EditorPosition(tabs, id)
                && ((forall j: nat :: !FirstEditor(tabs, id, j)) ==> EditorPosition(tabs, id) == None)
                && (forall j: nat | FirstEditor(tabs, id, j) ::
                      EditorPosition(tabs, id) == Some(EditorsBefore(tabs, j)))
      {
        var id := if tabs[i].Editor? then tabs[i].editor.id else tabs[i].sourceTabId;
        PositionMeans(tabs, id);
        if forall j: nat :: !FirstEditor(tabs, id, j) { NoneFirst(tabs, id, |tabs|); }
      }
    }
  }

  lemma {:induction false} NoneShown(tabs: seq<Tab>, id: nat, n: nat)
    requires n <= |tabs| && forall i: nat :: !Shown(tabs, Some(id), i)
    ensures forall i | 0 <= i < n :: IdAt(tabs, i) != id
  {
    if n > 0 {
      NoneShown(tabs, id, n - 1);
      assert !Shown(tabs, Some(id), n - 1);
    }
  }

  lemma {:induction false} NoneFirst(tabs: seq<Tab>, id: nat, n: nat)
    requires n <= |tabs| && forall j: nat :: !FirstEditor(tabs, id, j)
    ensures forall i | 0 <= i < n && tabs[i].Editor? :: tabs[i].editor.id != id
  {
    if n > 0 {
      NoneFirst(tabs, id, n - 1);
      assert !FirstEditor(tabs, id, n - 1);
    }
  }

  /** A loaded window tails the active tab exactly when that is a log shown from a file. */
  lemma LogsToTailMeans(tabs: seq<Tab>, activeTabId: Option<nat>)
    ensures forall id :: id in LogsToTail(tabs, activeTabId) <==>
              exists i: nat :: Shown(tabs, activeTabId, i) && tabs[i].Editor? && tabs[i].editor.id == id
                               && tabs[i].editor.logView && tabs[i].editor.location.Local?
  {
    if activeTabId.Some? {
      FindMeans(tabs, activeTabId.value);
      if forall i: nat :: !Shown(tabs, activeTabId, i) { NoneShown(tabs, activeTabId.value, |tabs|); }
      hide FindTab;
    }
  }
}
