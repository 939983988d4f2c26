/** From the tabs of a window through the database to the tabs of the next session. */
module SessionRoundTrip {
  import opened Common
  import opened SessionModel
  import opened StateRows
  import opened RowOrder
  import opened StateTheorems
  import opened StateRoundTrip
  import opened SessionTabs
  import opened FulgurWindow
  import opened SessionFacts

  /******* One tab *******/

  /** The file of a local tab is there, can be opened, and is strictly newer than recorded. */
  predicate Superseded(env: Env, disk: Disk, st: TabState) {
    && st.remote.None? && st.filePath.Some? && st.lastSaved.Some?
    && var file := disk(st.filePath.value);
       && file.present && file.opens && file.modified.Some?
       && env.parseTime(file.modified.value).Some? && env.parseTime(st.lastSaved.value).Some?
       && env.parseTime(file.modified.value).value > env.parseTime(st.lastSaved.value).value
  }

  /** Saved text comes back verbatim, under the same identity, unless its file supersedes it. */
  lemma SavedTextRestored(env: Env, disk: Disk, st: TabState)
    requires st.content.Some?
    ensures var restored := RestoreTab(env, disk, st);
            if Superseded(env, disk, st) then
              var onDisk := disk(st.filePath.value).contents;
              && restored.Some? == onDisk.Some?
              && (restored.Some? ==>
                    restored.value.id == st.tabId && restored.value.text == onDisk.value && !restored.value.modified)
            else
              && restored.Some? && restored.value.id == st.tabId
              && restored.value.text == st.content.value && restored.value.modified
  {}

  /** Whether an editor tab is still there in the next session. */
  predicate Survives(env: Env, persist: bool, saveDisk: Disk, loadDisk: Disk, tab: EditorTab) {
    && StateOfEditor(env, persist, saveDisk, tab).Some?
    && RestoreTab(env, loadDisk, StateOfEditor(env, persist, saveDisk, tab).value).Some?
  }

  /**
   In terms of the tab and the two disks: a persisted tab is still there unless it is a
   file whose saved text, if any, is superseded by a file that cannot be read.
   */
  lemma SurvivesWhen(env: Env, persist: bool, saveDisk: Disk, loadDisk: Disk, tab: EditorTab)
    ensures Survives(env, persist, saveDisk, loadDisk, tab) <==>
            && Persisted(env, persist, tab)
            && (tab.location.Local? ==>
                  var file, saved := loadDisk(tab.location.path), saveDisk(tab.location.path).modified;
                  if persist && Fits(env, tab) && Unsaved(env, tab) then
                    && file.present && file.opens && file.modified.Some? && saved.Some?
                    && env.parseTime(file.modified.value).Some? && env.parseTime(saved.value).Some?
                    && env.parseTime(file.modified.value).value > env.parseTime(saved.value).value
                    ==> file.contents.Some?
                  else file.present && file.opens && file.contents.Some?)
  {
    SavedAs(env, persist, saveDisk, tab);
    if Persisted(env, persist, tab) {
      RestoredAs(env, loadDisk, StateOfEditor(env, persist, saveDisk, tab).value);
      hide StateOfEditor, RestoreTab;
    }
  }

  /** Every saved editor tab has its place in the snapshot. */
  lemma {:induction false} SavedAt(env: Env, persist: bool, disk: Disk, tabs: seq<Tab>, j: nat) returns (k: nat)
    requires j < |tabs| && tabs[j].Editor? && StateOfEditor(env, persist, disk, tabs[j].editor).Some?
    ensures k < |SavedStates(env, persist, disk, tabs)|
    ensures SavedStates(env, persist, disk, tabs)[k] == StateOfEditor(env, persist, disk, tabs[j].editor).value
  {
    hide StateOfEditor;
    if j == |tabs| - 1 {
      k := |SavedStates(env, persist, disk, tabs)| - 1;
    } else {
      k := SavedAt(env, persist, disk, tabs[..|tabs| - 1], j);
    }
  }

  /**
   End to end: an unsaved text that is saved, stored and read back restores verbatim
   under its identity, unless its file has become strictly newer and can be opened.
   */
  lemma ContentSurvives(env: Env, persist: bool, saveDisk: Disk, loadDisk: Disk, t: Tables, owned: set<int>,
                        s: Snapshot, i: nat, tabs: seq<Tab>, j: nat) returns (k: nat)
    requires DistinctIds(s) && ValidTables(env.fp, t) && Encodable(env.fp, s)
    requires i < |s| && s[i].tabs == SavedStates(env, persist, saveDisk, tabs)
    requires j < |tabs| && tabs[j].Editor?
    requires persist && Fits(env, tabs[j].editor) && Unsaved(env, tabs[j].editor)
    requires Persisted(env, persist, tabs[j].editor)
    requires NoTabCollision(env.fp, TabsOf(t, s[i].windowId),
                            StateOfEditor(env, persist, saveDisk, tabs[j].editor).value)
    ensures DecodableTables(Apply(env.fp, t, owned, s))
    ensures var loaded := Select(LoadSpec(Apply(env.fp, t, owned, s)), WindowIds(s));
            && |loaded| == |s| && k < |loaded[i].tabs|
            && loaded[i].tabs[k].tabId == tabs[j].editor.id
            && (!Superseded(env, loadDisk, loaded[i].tabs[k]) ==>
                  var restored := RestoreTab(env, loadDisk, loaded[i].tabs[k]);
                  && restored.Some? && restored.value.id == tabs[j].editor.id
                  && restored.value.text == tabs[j].editor.text)
  {
    hide Apply, LoadSpec, Select, DecodableTables, ValidTables, Encodable, DistinctIds, RestoreTab, Superseded;
    LoadAfterApply(env.fp, t, owned, s);
    SavedAs(env, persist, saveDisk, tabs[j].editor);
    k := SavedAt(env, persist, saveDisk, tabs, j);
    var loaded := Select(LoadSpec(Apply(env.fp, t, owned, s)), WindowIds(s));
    SavedTextRestored(env, loadDisk, loaded[i].tabs[k]);
  }

  /******* The next save *******/

  /**
   Saving a restored text again without touching it: the next snapshot holds the text
   exactly for tabs restored as untitled that are neither too large nor blank under an
   untitled name. A file or remote tab takes its restored text as its baseline, so the
   second snapshot drops it.
   */
  lemma SecondSaveKeeps(env: Env, persist: bool, disk: Disk, saveDisk: Disk, st: TabState, tab: EditorTab)
    requires st.content.Some? && !Superseded(env, disk, st) && RestoreTab(env, disk, st) == Some(tab)
    ensures var second := StateOfEditor(env, persist, saveDisk, tab);
            (second.Some? && second.value.content == st.content) <==>
            && persist && st.remote.None?
            && (st.filePath.Some? ==> !disk(st.filePath.value).present)
            && env.fp(st.content.value).len <= 50 * 1024 * 1024
            && !(st.content.value == "" && "Untitled" <= st.title)
  {}

  /**
   So an unsaved edit of an existing file survives one restart and not two: the third
   session opens what the file then holds, or no tab at all.
   */
  lemma SecondRestartLoses(env: Env, persist: bool, saveDisk: Disk, loadDisk: Disk, nextSaveDisk: Disk,
                           nextLoadDisk: Disk, tab: EditorTab, restored: EditorTab)
    requires tab.location.Local? && persist && Fits(env, tab) && Unsaved(env, tab)
    requires loadDisk(tab.location.path).present
    requires RestoreTab(env, loadDisk, StateOfEditor(env, persist, saveDisk, tab).value) == Some(restored)
    requires !Superseded(env, loadDisk, StateOfEditor(env, persist, saveDisk, tab).value)
    ensures restored.text == tab.text && restored.modified
    ensures var second := StateOfEditor(env, persist, nextSaveDisk, restored);
            && second.Some? && second.value.content == None
            && var third, file := RestoreTab(env, nextLoadDisk, second.value), nextLoadDisk(tab.location.path);
               && third.Some? == (file.present && file.opens && file.contents.Some?)
               && (third.Some? ==>
                     third.value.id == tab.id && third.value.text == file.contents.value && !third.value.modified)
  {}

  /******* The active tab *******/

  function SurvivorIds(env: Env, persist: bool, saveDisk: Disk, loadDisk: Disk, es: seq<EditorTab>): (ids: seq<nat>) {
    if |es| == 0 then []
    else
      SurvivorIds(env, persist, saveDisk, loadDisk, es[..|es| - 1])
      + if Survives(env, persist, saveDisk, loadDisk, es[|es| - 1]) then [es[|es| - 1].id] else []
  }

  function IdsOfEditors(es: seq<EditorTab>): (ids: seq<nat>) {
    seq(|es|, i requires 0 <= i < |es| => es[i].id)
  }

  lemma StateKeepsId(env: Env, persist: bool, disk: Disk, tab: EditorTab)
    ensures StateOfEditor(env, persist, disk, tab).Some?
            ==> StateOfEditor(env, persist, disk, tab).value.tabId == tab.id
  {}

  /** What one more tab adds to what is saved, restored and counted. */
  lemma OneMoreTab(env: Env, persist: bool, saveDisk: Disk, loadDisk: Disk, tabs: seq<Tab>)
    requires |tabs| > 0
    ensures var front, tab := tabs[..|tabs| - 1], tabs[|tabs| - 1];
            var states, es := SavedStates(env, persist, saveDisk, front), Editors(front);
            var saved := if tab.Editor? then StateOfEditor(env, persist, saveDisk, tab.editor) else None;
            && SavedStates(env, persist, saveDisk, tabs) == (if saved.Some? then states + [saved.value] else states)
            && Editors(tabs) == (if tab.Editor? then es + [tab.editor] else es)
  {
    hide StateOfEditor;
  }

  lemma OneMoreRestored(env: Env, disk: Disk, states: seq<TabState>, st: TabState)
    ensures var tab := RestoreTab(env, disk, st);
            RestoredTabs(env, disk, states + [st])
            == RestoredTabs(env, disk, states) + if tab.Some? then [tab.value] else []
  {
    hide RestoreTab;
    assert (states + [st])[..|states|] == states;
  }

  lemma OneMoreSurvivor(env: Env, persist: bool, saveDisk: Disk, loadDisk: Disk, es: seq<EditorTab>, e: EditorTab)
    ensures SurvivorIds(env, persist, saveDisk, loadDisk, es + [e])
            == SurvivorIds(env, persist, saveDisk, loadDisk, es)
               + if Survives(env, persist, saveDisk, loadDisk, e) then [e.id] else []
  {
    hide Survives;
    assert (es + [e])[..|es|] == es;
  }

  lemma IdsOfNone()
    ensures IdsOfEditors([]) == []
  {}

  lemma IdsOfMore(es: seq<EditorTab>, e: EditorTab)
    ensures IdsOfEditors(es + [e]) == IdsOfEditors(es) + [e.id]
  {}

  /** The restored tabs are the surviving editors, in order. */
  lemma {:induction false} RestoredAreSurvivors(env: Env, persist: bool, saveDisk: Disk, loadDisk: Disk, tabs: seq<Tab>)
    ensures IdsOfEditors(RestoredTabs(env, loadDisk, SavedStates(env, persist, saveDisk, tabs)))
            == SurvivorIds(env, persist, saveDisk, loadDisk, Editors(tabs))
  {
    hide RestoreTab, StateOfEditor, IdsOfEditors;
    if |tabs| == 0 {
      IdsOfNone();
    } else {
      hide SavedStates, RestoredTabs, SurvivorIds, Editors;
      var front, tab := tabs[..|tabs| - 1], tabs[|tabs| - 1];
      RestoredAreSurvivors(env, persist, saveDisk, loadDisk, front);
      OneMoreTab(env, persist, saveDisk, loadDisk, tabs);
      if tab.Editor? {
        OneMoreSurvivor(env, persist, saveDisk, loadDisk, Editors(front), tab.editor);
        var saved := StateOfEditor(env, persist, saveDisk, tab.editor);
        if saved.Some? {
          var states := SavedStates(env, persist, saveDisk, front);
          OneMoreRestored(env, loadDisk, states, saved.value);
          StateKeepsId(env, persist, saveDisk, tab.editor);
          RestoreKeepsId(env, loadDisk, saved.value);
          var restored := RestoreTab(env, loadDisk, saved.value);
          if restored.Some? { IdsOfMore(RestoredTabs(env, loadDisk, states), restored.value); }
        }
      }
    }
  }

  /** Survivors before an editor: as many as editors exactly when all survive, none when none does. */
  lemma {:induction false} SurvivorsBefore(env: Env, persist: bool, saveDisk: Disk, loadDisk: Disk, es: seq<EditorTab>,
                                           i: nat)
    requires i <= |es|
    ensures var n := |SurvivorIds(env, persist, saveDisk, loadDisk, es[..i])|;
            && n <= i
            && (n == i <==> forall j | 0 <= j < i :: Survives(env, persist, saveDisk, loadDisk, es[j]))
            && (n == 0 <==> forall j | 0 <= j < i :: !Survives(env, persist, saveDisk, loadDisk, es[j]))
  {
    hide Survives;
    if i > 0 {
      SurvivorsBefore(env, persist, saveDisk, loadDisk, es, i - 1);
      assert es[..i][..i - 1] == es[..i - 1] && es[..i][i - 1] == es[i - 1];
    }
  }

  lemma {:induction false} SurvivorFrom(env: Env, persist: bool, saveDisk: Disk, loadDisk: Disk, es: seq<EditorTab>,
                                        id: nat)
    requires id in SurvivorIds(env, persist, saveDisk, loadDisk, es)
    ensures exists j :: 0 <= j < |es| && es[j].id == id && Survives(env, persist, saveDisk, loadDisk, es[j])
  {
    hide Survives;
    var front := es[..|es| - 1];
    if id in SurvivorIds(env, persist, saveDisk, loadDisk, front) {
      SurvivorFrom(env, persist, saveDisk, loadDisk, front, id);
      var j :| 0 <= j < |front| && front[j].id == id && Survives(env, persist, saveDisk, loadDisk, front[j]);
      assert es[j] == front[j];
    } else {
      assert es[|es| - 1].id == id;
    }
  }

  /** A surviving editor sits behind the survivors before it, and nowhere else. */
  lemma {:induction false} SurvivorPosition(env: Env, persist: bool, saveDisk: Disk, loadDisk: Disk, es: seq<EditorTab>,
                                            i: nat)
    requires DistinctEditors(es) && i < |es| && Survives(env, persist, saveDisk, loadDisk, es[i])
    ensures var ids, rank := SurvivorIds(env, persist, saveDisk, loadDisk, es),
                             |SurvivorIds(env, persist, saveDisk, loadDisk, es[..i])|;
            rank < |ids| && forall p | 0 <= p < |ids| :: ids[p] == es[i].id <==> p == rank
    decreases |es|
  {
    hide Survives;
    var front, last := es[..|es| - 1], es[|es| - 1];
    var ids := SurvivorIds(env, persist, saveDisk, loadDisk, front);
    if i == |es| - 1 {
      assert es[..i] == front;
      forall p | 0 <= p < |ids| ensures ids[p] != last.id {
        var id := ids[p];
        assert id in ids;
        SurvivorFrom(env, persist, saveDisk, loadDisk, front, id);
        var j :| 0 <= j < |front| && front[j].id == id;
        assert es[j].id == id;
      }
    } else {
      assert front[..i] == es[..i];
      SurvivorPosition(env, persist, saveDisk, loadDisk, front, i);
      assert last.id != es[i].id;
    }
  }

  lemma {:induction false} PositionIs(tabs: seq<Tab>, i: nat)
    requires DistinctEditors(Editors(tabs)) && i < |Editors(tabs)|
    ensures EditorPosition(tabs, Editors(tabs)[i].id) == Some(i)
  {
    var front, tab := tabs[..|tabs| - 1], tabs[|tabs| - 1];
    var es := Editors(front);
    assert Editors(tabs)[..|es|] == es;
    forall a, b | 0 <= a < b < |es| ensures es[a].id != es[b].id {
      assert Editors(tabs)[a].id != Editors(tabs)[b].id;
    }
    if i < |es| {
      PositionIs(front, i);
    } else {
      forall j | 0 <= j < |es| ensures es[j].id != tab.editor.id {
        assert Editors(tabs)[j].id != Editors(tabs)[|es|].id;
      }
      NoPosition(front, tab.editor.id);
    }
  }

  lemma {:induction false} NoPosition(tabs: seq<Tab>, id: nat)
    requires forall j | 0 <= j < |Editors(tabs)| :: Editors(tabs)[j].id != id
    ensures EditorPosition(tabs, id).None?
  {
    if |tabs| > 0 {
      var front := tabs[..|tabs| - 1];
      assert Editors(tabs)[..|Editors(front)|] == Editors(front);
      forall j | 0 <= j < |Editors(front)| ensures Editors(front)[j].id != id { assert Editors(tabs)[j].id != id; }
      if tabs[|tabs| - 1].Editor? { assert Editors(tabs)[|Editors(front)|].id != id; }
      NoPosition(front, id);
    }
  }

  /**
   The active tab comes back exactly when it survives and either every editor tab
   before it survives, or none does and there are too few survivors for the stored index.
   */
  lemma ActiveTabRoundTrip(env: Env, persist: bool, saveDisk: Disk, loadDisk: Disk, tabs: seq<Tab>,
                           activeTabId: Option<nat>, i: nat)
    requires DistinctEditors(Editors(tabs)) && i < |Editors(tabs)|
    requires ActiveEditor(tabs, activeTabId) == Some(Editors(tabs)[i].id)
    ensures var es := Editors(tabs);
            var restored := RestoredTabs(env, loadDisk, SavedStates(env, persist, saveDisk, tabs));
            (&& (exists k :: 0 <= k < |restored| && restored[k].id == es[i].id)
             && RestoredActive(ActiveEditorIndex(tabs, activeTabId), restored) == Some(es[i].id))
            <==>
            && Survives(env, persist, saveDisk, loadDisk, es[i])
            && (|| (forall j | 0 <= j < i :: Survives(env, persist, saveDisk, loadDisk, es[j]))
                || (&& (forall j | 0 <= j < i :: !Survives(env, persist, saveDisk, loadDisk, es[j]))
                    && |SurvivorIds(env, persist, saveDisk, loadDisk, es)| <= i))
  {
    hide Survives, RestoredTabs, SavedStates, Editors, SurvivorIds, DistinctEditors, IdsOfEditors;
    var es := Editors(tabs);
    var restored := RestoredTabs(env, loadDisk, SavedStates(env, persist, saveDisk, tabs));
    var ids := SurvivorIds(env, persist, saveDisk, loadDisk, es);
    RestoredAreSurvivors(env, persist, saveDisk, loadDisk, tabs);
    SameIds(restored, ids);
    if Survives(env, persist, saveDisk, loadDisk, es[i]) {
      PositionIs(tabs, i);
      SurvivorsBefore(env, persist, saveDisk, loadDisk, es, i);
      SurvivorPosition(env, persist, saveDisk, loadDisk, es, i);
      var rank := |SurvivorIds(env, persist, saveDisk, loadDisk, es[..i])|;
      assert restored[rank].id == es[i].id;
    } else if k :| 0 <= k < |restored| && restored[k].id == es[i].id {
      assert ids[k] in ids;
      GoneForGood(env, persist, saveDisk, loadDisk, es, i);
    }
  }

  lemma GoneForGood(env: Env, persist: bool, saveDisk: Disk, loadDisk: Disk, es: seq<EditorTab>, i: nat)
    requires DistinctEditors(es) && i < |es| && !Survives(env, persist, saveDisk, loadDisk, es[i])
    ensures es[i].id !in SurvivorIds(env, persist, saveDisk, loadDisk, es)
  {
    hide Survives, SurvivorIds;
    if es[i].id in SurvivorIds(env, persist, saveDisk, loadDisk, es) {
      SurvivorFrom(env, persist, saveDisk, loadDisk, es, es[i].id);
    }
  }

  lemma SameIds(es: seq<EditorTab>, ids: seq<nat>)
    requires IdsOfEditors(es) == ids
    ensures |es| == |ids| && forall p | 0 <= p < |es| :: es[p].id == ids[p]
  {}

  /** Equal but for the wording of a text that both have or both lack. */
  ghost predicate SameShape(a: TabState, b: TabState) {
    a == b.(content := a.content) && a.content.Some? == b.content.Some?
  }

  lemma SameShapeRestores(env: Env, disk: Disk, a: TabState, b: TabState)
    requires SameShape(a, b)
    ensures RestoreTab(env, disk, a).Some? == RestoreTab(env, disk, b).Some?
  {}

  /** Tabs of the same shape restore to tabs with the same ids. */
  lemma {:induction false} SameIdsRestored(env: Env, disk: Disk, xs: seq<TabState>, ys: seq<TabState>)
    requires |xs| == |ys| && forall k | 0 <= k < |xs| :: SameShape(xs[k], ys[k])
    ensures |RestoredTabs(env, disk, xs)| == |RestoredTabs(env, disk, ys)| <= |xs|
    ensures forall k | 0 <= k < |RestoredTabs(env, disk, xs)| ::
              RestoredTabs(env, disk, xs)[k].id == RestoredTabs(env, disk, ys)[k].id
  {
    hide RestoreTab;
    var n := |xs| - 1;
    if n >= 0 {
      SameIdsRestored(env, disk, xs[..n], ys[..n]);
      SameShapeRestores(env, disk, xs[n], ys[n]);
      RestoreKeepsId(env, disk, xs[n]);
      RestoreKeepsId(env, disk, ys[n]);
    }
  }

  /**
   The database in between changes none of this, collisions of stored texts included:
   the stored index resolves to the same tab.
   */
  lemma ActiveThroughDatabase(env: Env, loadDisk: Disk, t: Tables, owned: set<int>, s: Snapshot, i: nat)
    requires DistinctIds(s) && ValidTables(env.fp, t) && Encodable(env.fp, s) && i < |s|
    ensures DecodableTables(Apply(env.fp, t, owned, s))
    ensures var loaded := Select(LoadSpec(Apply(env.fp, t, owned, s)), WindowIds(s));
            && |loaded| == |s|
            && RestoredActive(loaded[i].activeTabIndex, RestoredTabs(env, loadDisk, loaded[i].tabs))
               == RestoredActive(s[i].activeTabIndex, RestoredTabs(env, loadDisk, s[i].tabs))
  {
    hide Apply, LoadSpec, Select, DecodableTables, ValidTables, Encodable, DistinctIds, RestoreTab, RestoredTabs;
    LoadAfterApply(env.fp, t, owned, s);
    var loaded := Select(LoadSpec(Apply(env.fp, t, owned, s)), WindowIds(s));
    SameIdsRestored(env, loadDisk, loaded[i].tabs, s[i].tabs);
  }

  /** A blank untitled tab in front shifts the active tab by one. */
  lemma BlankTabShiftsActive(env: Env, disk: Disk, tabs: seq<Tab>)
    requires env.fp("").len <= 50 * 1024 * 1024
    requires tabs == [InitialTab(env),
                      Editor(FromFile(env, 1, "a", "", false)),
                      Editor(FromFile(env, 2, "b", "", false))]
    requires forall path :: disk(path) == FileView(true, None, true, Some(""))
    ensures ActiveEditor(tabs, Some(1)) == Some(1)
    ensures RestoredActive(ActiveEditorIndex(tabs, Some(1)),
                           RestoredTabs(env, disk, SavedStates(env, true, disk, tabs)))
            == Some(2)
  {
    hide RestoredTabs, SavedStates, SurvivorIds, FromFile, InitialTab, EditorPosition;
    ThreeIds(env);
    var es := [tabs[0].editor, tabs[1].editor, tabs[2].editor];
    EditorsOfThree(es[0], es[1], es[2]);
    assert FindTab(tabs, 1) == Some(tabs[1]) by { assert tabs[1..][0] == tabs[1]; }
    PositionIs(tabs, 1);
    BlankSurvivors(env, disk, es);
    RestoredAreSurvivors(env, true, disk, disk, tabs);
    SameIds(RestoredTabs(env, disk, SavedStates(env, true, disk, tabs)), [1, 2]);
  }

  lemma ThreeIds(env: Env)
    ensures InitialTab(env).Editor? && InitialTab(env).editor.id == 0
    ensures FromFile(env, 1, "a", "", false).id == 1 && FromFile(env, 2, "b", "", false).id == 2
  {}

  lemma EditorsOfThree(a: EditorTab, b: EditorTab, c: EditorTab)
    ensures Editors([Editor(a), Editor(b), Editor(c)]) == [a, b, c]
  {
    var tabs := [Editor(a), Editor(b), Editor(c)];
    assert tabs[..2] == [Editor(a), Editor(b)] && tabs[..2][..1] == [Editor(a)];
    assert Editors([Editor(a)]) == [a];
    assert Editors([Editor(a), Editor(b)]) == [a, b];
  }

  lemma BlankSurvivors(env: Env, disk: Disk, es: seq<EditorTab>)
    requires env.fp("").len <= 50 * 1024 * 1024
    requires es == [InitialTab(env).editor, FromFile(env, 1, "a", "", false), FromFile(env, 2, "b", "", false)]
    requires forall path :: disk(path) == FileView(true, None, true, Some(""))
    ensures SurvivorIds(env, true, disk, disk, es) == [1, 2]
  {
    assert !Survives(env, true, disk, disk, es[0]);
    assert Survives(env, true, disk, disk, es[1]) && Survives(env, true, disk, disk, es[2]);
    assert es[..2] == [es[0], es[1]] && es[..2][..1] == [es[0]] && es[..1] == [es[0]] && es[..2][..1][..0] == [];
    assert SurvivorIds(env, true, disk, disk, es[..1]) == [];
    assert SurvivorIds(env, true, disk, disk, es[..2]) == [1];
  }
}
