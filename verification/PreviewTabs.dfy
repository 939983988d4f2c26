/** Preview tabs inserted behind Markdown editors, and why they change nothing that is saved. */
module PreviewTabs {
  import opened Common
  import opened SessionModel
  import opened SessionTabs

  function Previewed(env: Env, tab: Tab): bool {
    tab.Editor? && !tab.editor.largeFile && env.isMarkdown(tab.editor)
  }

  function PreviewCount(env: Env, tabs: seq<Tab>): nat {
    if |tabs| == 0 then 0
    else PreviewCount(env, tabs[..|tabs| - 1]) + if Previewed(env, tabs[|tabs| - 1]) then 1 else 0
  }

  /** Each Markdown editor followed by a preview; previews are numbered from `next` on. */
  function WithPreviews(env: Env, tabs: seq<Tab>, next: nat): (all: seq<Tab>)
    ensures |all| == |tabs| + PreviewCount(env, tabs)
  {
    if |tabs| == 0 then []
    else
      var front, tab := tabs[..|tabs| - 1], tabs[|tabs| - 1];
      var all := WithPreviews(env, front, next) + [tab];
      if Previewed(env, tab) then all + [MarkdownPreview(next + PreviewCount(env, front), tab.editor.id)] else all
  }

  lemma PreviewsNone(env: Env, next: nat)
    ensures WithPreviews(env, [], next) == [] && PreviewCount(env, []) == 0
  {}

  /** Inserting behind one more tab, where the rest of the tabs still follows. */
  lemma PreviewsStep(env: Env, before: seq<Tab>, i: nat, next: nat, tabs: seq<Tab>)
    requires i < |before| && tabs == WithPreviews(env, before[..i], next) + before[i..]
    ensures var at := i + PreviewCount(env, before[..i]);
            && at < |tabs| && tabs[at] == before[i]
            && (!Previewed(env, before[i]) ==>
                  && PreviewCount(env, before[..i + 1]) == PreviewCount(env, before[..i])
                  && tabs == WithPreviews(env, before[..i + 1], next) + before[i + 1..])
            && (Previewed(env, before[i]) ==>
                  && PreviewCount(env, before[..i + 1]) == PreviewCount(env, before[..i]) + 1
                  && tabs[..at + 1] + [MarkdownPreview(next + PreviewCount(env, before[..i]), before[i].editor.id)]
                     + tabs[at + 1..] == WithPreviews(env, before[..i + 1], next) + before[i + 1..])
  {
    assert before[..i + 1][..i] == before[..i];
  }

  /** The first tab stays in front. */
  lemma {:induction false} FirstStays(env: Env, tabs: seq<Tab>, next: nat)
    requires tabs != []
    ensures WithPreviews(env, tabs, next)[0] == tabs[0]
  {
    if |tabs| > 1 { FirstStays(env, tabs[..|tabs| - 1], next); }
  }

  lemma EditorsOfMore(tabs: seq<Tab>, tab: Tab)
    ensures Editors(tabs + [tab]) == if tab.Editor? then Editors(tabs) + [tab.editor] else Editors(tabs)
  {
    assert (tabs + [tab])[..|tabs|] == tabs && Editors(tabs) + [] == Editors(tabs);
  }

  /** The editor tabs and their order are untouched. */
  lemma {:induction false} PreviewsKeepEditors(env: Env, tabs: seq<Tab>, next: nat)
    ensures Editors(WithPreviews(env, tabs, next)) == Editors(tabs)
  {
    if |tabs| > 0 {
      var front, tab := tabs[..|tabs| - 1], tabs[|tabs| - 1];
      PreviewsKeepEditors(env, front, next);
      var all := WithPreviews(env, front, next);
      assert WithPreviews(env, tabs, next) ==
             if Previewed(env, tab) then all + [tab] + [MarkdownPreview(next + PreviewCount(env, front), tab.editor.id)]
             else all + [tab];
      hide Editors, WithPreviews, PreviewCount;
      EditorsOfMore(all, tab);
      if Previewed(env, tab) {
        EditorsOfMore(all + [tab], MarkdownPreview(next + PreviewCount(env, front), tab.editor.id));
      }
      assert front + [tab] == tabs;
      EditorsOfMore(front, tab);
    }
  }

  ghost predicate DistinctTabIds(tabs: seq<Tab>) {
    forall i, j | 0 <= i < j < |tabs| :: TabId(tabs[i]) != TabId(tabs[j])
  }

  ghost predicate IdsBelow(tabs: seq<Tab>, next: nat) {
    forall i | 0 <= i < |tabs| :: TabId(tabs[i]) < next
  }

  /** Every tab is a preview numbered from `next` on or one of `tabs`. */
  ghost predicate OldOrNew(all: seq<Tab>, tabs: seq<Tab>, next: nat) {
    forall i | 0 <= i < |all| :: all[i] in tabs || TabId(all[i]) >= next
  }

  lemma AppendDistinct(all: seq<Tab>, tab: Tab)
    requires DistinctTabIds(all) && forall i | 0 <= i < |all| :: TabId(all[i]) != TabId(tab)
    ensures DistinctTabIds(all + [tab])
  {}

  lemma AppendBelow(all: seq<Tab>, tab: Tab, next: nat, next': nat)
    requires IdsBelow(all, next) && next <= next' && TabId(tab) < next'
    ensures IdsBelow(all + [tab], next')
  {}

  lemma Fewer(tabs: seq<Tab>, next: nat)
    requires |tabs| > 0 && DistinctTabIds(tabs) && IdsBelow(tabs, next)
    ensures DistinctTabIds(tabs[..|tabs| - 1]) && IdsBelow(tabs[..|tabs| - 1], next)
    ensures TabId(tabs[|tabs| - 1]) < next
  {}

  /** A tab of the window differs from everything in front of it, previews included. */
  lemma ApartFromLast(all: seq<Tab>, tabs: seq<Tab>, next: nat)
    requires |tabs| > 0 && DistinctTabIds(tabs) && IdsBelow(tabs, next) && OldOrNew(all, tabs[..|tabs| - 1], next)
    ensures forall i | 0 <= i < |all| :: TabId(all[i]) != TabId(tabs[|tabs| - 1])
    ensures OldOrNew(all + [tabs[|tabs| - 1]], tabs, next)
  {
    var front, tab := tabs[..|tabs| - 1], tabs[|tabs| - 1];
    forall i | 0 <= i < |all| ensures TabId(all[i]) != TabId(tab) && (all[i] in tabs || TabId(all[i]) >= next) {
      if all[i] in front {
        var k :| 0 <= k < |front| && front[k] == all[i];
        assert tabs[k] == front[k];
      }
    }
  }

  lemma NewAppended(all: seq<Tab>, tabs: seq<Tab>, next: nat, tab: Tab)
    requires OldOrNew(all, tabs, next) && TabId(tab) >= next
    ensures OldOrNew(all + [tab], tabs, next)
  {}

  /** Previews get ids of their own, behind every id in use. */
  lemma {:induction false} PreviewIdsFresh(env: Env, tabs: seq<Tab>, next: nat)
    requires DistinctTabIds(tabs) && IdsBelow(tabs, next)
    ensures var all := WithPreviews(env, tabs, next);
            DistinctTabIds(all) && IdsBelow(all, next + PreviewCount(env, tabs)) && OldOrNew(all, tabs, next)
  {
    if |tabs| > 0 {
      hide DistinctTabIds, IdsBelow, OldOrNew;
      var front, tab := tabs[..|tabs| - 1], tabs[|tabs| - 1];
      Fewer(tabs, next);
      PreviewIdsFresh(env, front, next);
      var all, n := WithPreviews(env, front, next), next + PreviewCount(env, front);
      ApartFromLast(all, tabs, next);
      AppendDistinct(all, tab);
      AppendBelow(all, tab, n, n);
      if Previewed(env, tab) {
        var preview := MarkdownPreview(n, tab.editor.id);
        BelowApart(all + [tab], preview, n);
        AppendDistinct(all + [tab], preview);
        AppendBelow(all + [tab], preview, n, n + 1);
        NewAppended(all + [tab], tabs, next, preview);
      }
    }
  }

  lemma BelowApart(all: seq<Tab>, tab: Tab, next: nat)
    requires IdsBelow(all, next) && TabId(tab) >= next
    ensures forall i | 0 <= i < |all| :: TabId(all[i]) != TabId(tab)
  {}

  /** A snapshot holds what the editor tabs alone decide. */
  function StatesOf(env: Env, persist: bool, disk: Disk, es: seq<EditorTab>): seq<TabState> {
    if |es| == 0 then []
    else
      var front, saved := StatesOf(env, persist, disk, es[..|es| - 1]), StateOfEditor(env, persist, disk, es[|es| - 1]);
      if saved.Some? then front + [saved.value] else front
  }

  lemma {:induction false} SavedFromEditors(env: Env, persist: bool, disk: Disk, tabs: seq<Tab>)
    ensures SavedStates(env, persist, disk, tabs) == StatesOf(env, persist, disk, Editors(tabs))
  {
    hide StateOfEditor;
    if |tabs| > 0 {
      var front := tabs[..|tabs| - 1];
      SavedFromEditors(env, persist, disk, front);
      assert front + [tabs[|tabs| - 1]] == tabs;
      EditorsOfMore(front, tabs[|tabs| - 1]);
      var es := Editors(tabs);
      if tabs[|tabs| - 1].Editor? { assert es[..|es| - 1] == Editors(front); }
    }
  }

  /** The first editor with an identity, among the editors. */
  function IndexOfEditor(es: seq<EditorTab>, id: nat): Option<nat> {
    if |es| == 0 then None
    else
      var front := IndexOfEditor(es[..|es| - 1], id);
      if front.Some? then front else if es[|es| - 1].id == id then Some(|es| - 1) else None
  }

  lemma {:induction false} PositionFromEditors(tabs: seq<Tab>, id: nat)
    ensures EditorPosition(tabs, id) == IndexOfEditor(Editors(tabs), id)
  {
    if |tabs| > 0 {
      var front := tabs[..|tabs| - 1];
      PositionFromEditors(front, id);
      assert front + [tabs[|tabs| - 1]] == tabs;
      EditorsOfMore(front, tabs[|tabs| - 1]);
      var es := Editors(tabs);
      if tabs[|tabs| - 1].Editor? { assert es[..|es| - 1] == Editors(front); }
    }
  }

  /** A window with previews is saved as it would be without them. */
  lemma PreviewsNotSaved(env: Env, persist: bool, disk: Disk, tabs: seq<Tab>, next: nat, id: nat)
    ensures SavedStates(env, persist, disk, WithPreviews(env, tabs, next)) == SavedStates(env, persist, disk, tabs)
    ensures EditorPosition(WithPreviews(env, tabs, next), id) == EditorPosition(tabs, id)
  {
    PreviewsKeepEditors(env, tabs, next);
    SavedFromEditors(env, persist, disk, tabs);
    SavedFromEditors(env, persist, disk, WithPreviews(env, tabs, next));
    PositionFromEditors(tabs, id);
    PositionFromEditors(WithPreviews(env, tabs, next), id);
  }

  /******* Where the previews stand *******/

  /** A preview is due behind every editor of Markdown that is not a large file. */
  predicate Eligible(env: Env, tabs: seq<Tab>, i: int) {
    0 <= i < |tabs| && tabs[i].Editor? && !tabs[i].editor.largeFile && env.isMarkdown(tabs[i].editor)
  }

  function EligibleBefore(env: Env, tabs: seq<Tab>, n: nat): nat {
    |set i | 0 <= i < n && Eligible(env, tabs, i)|
  }

  lemma EligibleStep(env: Env, tabs: seq<Tab>, n: nat)
    ensures EligibleBefore(env, tabs, n + 1) == EligibleBefore(env, tabs, n) + if Eligible(env, tabs, n) then 1 else 0
  {
    var before := set i | 0 <= i < n && Eligible(env, tabs, i);
    var after := set i | 0 <= i < n + 1 && Eligible(env, tabs, i);
    assert after == if Eligible(env, tabs, n) then before + {n} else before;
  }

  lemma {:induction false} EligibleFront(env: Env, tabs: seq<Tab>, n: nat)
    requires n < |tabs|
    ensures EligibleBefore(env, tabs[..|tabs| - 1], n) == EligibleBefore(env, tabs, n)
  {
    hide EligibleBefore;
    if n == 0 {
      NoneEligible(env, tabs);
      NoneEligible(env, tabs[..|tabs| - 1]);
    } else {
      EligibleFront(env, tabs, n - 1);
      EligibleStep(env, tabs, n - 1);
      EligibleStep(env, tabs[..|tabs| - 1], n - 1);
    }
  }

  lemma NoneEligible(env: Env, tabs: seq<Tab>)
    ensures EligibleBefore(env, tabs, 0) == 0
  {
    assert (set i | 0 <= i < 0 && Eligible(env, tabs, i)) == {};
  }

  lemma {:induction false} CountIsEligible(env: Env, tabs: seq<Tab>)
    ensures PreviewCount(env, tabs) == EligibleBefore(env, tabs, |tabs|)
  {
    if |tabs| == 0 {
      NoneEligible(env, tabs);
    } else {
      var n := |tabs| - 1;
      CountIsEligible(env, tabs[..n]);
      EligibleFront(env, tabs, n);
      EligibleStep(env, tabs, n);
    }
  }

  /** Tab `i` and, if one is due, the preview right behind it. */
  ghost predicate StandsAt(env: Env, tabs: seq<Tab>, next: nat, all: seq<Tab>, i: nat) {
    var before := EligibleBefore(env, tabs, i);
    && i < |tabs| && i + before < |all| && all[i + before] == tabs[i]
    && (Eligible(env, tabs, i) ==>
          i + before + 1 < |all| && all[i + before + 1] == MarkdownPreview(next + before, tabs[i].editor.id))
  }

  /** Every tab stays, shifted by the previews before it; previews stand behind their editors, numbered in order. */
  lemma {:induction false} PreviewsStand(env: Env, tabs: seq<Tab>, next: nat)
    ensures |WithPreviews(env, tabs, next)| == |tabs| + EligibleBefore(env, tabs, |tabs|)
    ensures forall i: nat | i < |tabs| :: StandsAt(env, tabs, next, WithPreviews(env, tabs, next), i)
  {
    CountIsEligible(env, tabs);
    if |tabs| > 0 {
      var n, front := |tabs| - 1, tabs[..|tabs| - 1];
      PreviewsStand(env, front, next);
      CountIsEligible(env, front);
      EligibleFront(env, tabs, n);
      var fs, all := WithPreviews(env, front, next), WithPreviews(env, tabs, next);
      assert fs <= all && all[|fs|] == tabs[n];
      hide WithPreviews, EligibleBefore;
      EligibleStep(env, tabs, n);
      forall i: nat | i < n ensures StandsAt(env, tabs, next, all, i) {
        EligibleFront(env, tabs, i);
        assert StandsAt(env, front, next, fs, i);
      }
    }
  }
}
