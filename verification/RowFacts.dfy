/** Facts about the row functions that the handle's loops rely on. */
module RowFacts {
  import opened Common
  import opened SessionModel
  import opened StateRows

  lemma SeenWindowsStep(s: Snapshot, n: nat)
    requires n < |s|
    ensures SeenWindows(s, n + 1) == SeenWindows(s, n) + {s[n].windowId}
  {
    forall id | id in SeenWindows(s, n) ensures id in SeenWindows(s, n + 1) {
      var i :| 0 <= i < n && s[i].windowId == id;
      assert i < n + 1;
    }
  }

  lemma SeenTabsStep(tabs: seq<TabState>, n: nat)
    requires n < |tabs|
    ensures SeenTabs(tabs, n + 1) == SeenTabs(tabs, n) + {tabs[n].tabId}
  {
    forall id | id in SeenTabs(tabs, n) ensures id in SeenTabs(tabs, n + 1) {
      var i :| 0 <= i < n && tabs[i].tabId == id;
      assert i < n + 1;
    }
  }

  lemma LastIndexIs(tabs: seq<TabState>, n: nat, id: int, i: nat)
    requires n <= |tabs| && id in SeenTabs(tabs, n) && IsLast(tabs, n, id, i)
    ensures LastIndex(tabs, n, id) == i
  {
    var k := LastIndex(tabs, n, id);
    assert tabs[i].tabId == id && tabs[k].tabId == id;
  }

  lemma CountStep(gone: set<int>, id: int, keys: set<int>)
    requires id !in gone
    ensures |(gone + {id}) * keys| == |gone * keys| + if id in keys then 1 else 0
  {
    if id in keys {
      assert (gone + {id}) * keys == gone * keys + {id};
    } else {
      assert (gone + {id}) * keys == gone * keys;
    }
  }

  lemma TabsAfterNone(fp: Hasher, prior: map<int, TabRow>, tabs: seq<TabState>)
    ensures TabsAfter(fp, prior, tabs, 0) == prior
  {
    assert SeenTabs(tabs, 0) == {};
  }

  /** A later visit of other tabs leaves a row alone. */
  lemma TabsAfterOther(fp: Hasher, prior: map<int, TabRow>, tabs: seq<TabState>, n: nat, id: int)
    requires n < |tabs| && id in SeenTabs(tabs, n) && id != tabs[n].tabId
    ensures id in SeenTabs(tabs, n + 1) && LastIndex(tabs, n + 1, id) == LastIndex(tabs, n, id)
  {
    SeenTabsStep(tabs, n);
    LastIndexIs(tabs, n + 1, id, LastIndex(tabs, n, id));
  }

  lemma TabsAfterKeys(fp: Hasher, prior: map<int, TabRow>, tabs: seq<TabState>, n: nat)
    requires n <= |tabs|
    ensures TabsAfter(fp, prior, tabs, n).Keys == prior.Keys + SeenTabs(tabs, n)
  {
    hide VisitedRow, LastIndex;
  }

  lemma TabsAfterRow(fp: Hasher, prior: map<int, TabRow>, tabs: seq<TabState>, n: nat, id: int)
    requires n < |tabs| && id in prior.Keys + SeenTabs(tabs, n) && id != tabs[n].tabId
    ensures id in TabsAfter(fp, prior, tabs, n) && id in TabsAfter(fp, prior, tabs, n + 1)
    ensures TabsAfter(fp, prior, tabs, n + 1)[id] == TabsAfter(fp, prior, tabs, n)[id]
  {
    hide VisitedRow;
    SeenTabsStep(tabs, n);
    if id in SeenTabs(tabs, n) { TabsAfterOther(fp, prior, tabs, n, id); }
  }

  lemma TabsAfterNewest(fp: Hasher, prior: map<int, TabRow>, tabs: seq<TabState>, n: nat)
    requires n < |tabs|
    ensures tabs[n].tabId in TabsAfter(fp, prior, tabs, n + 1)
    ensures TabsAfter(fp, prior, tabs, n + 1)[tabs[n].tabId] == VisitedRow(fp, prior, tabs, n)
  {
    hide VisitedRow;
    SeenTabsStep(tabs, n);
    LastIndexIs(tabs, n + 1, tabs[n].tabId, n);
  }

  /** Visiting one more tab updates exactly its row. */
  lemma TabsAfterStep(fp: Hasher, prior: map<int, TabRow>, tabs: seq<TabState>, n: nat)
    requires n < |tabs|
    ensures TabsAfter(fp, prior, tabs, n + 1)
            == TabsAfter(fp, prior, tabs, n)[tabs[n].tabId := VisitedRow(fp, prior, tabs, n)]
  {
    hide VisitedRow, TabsAfter, SeenTabs;
    SeenTabsStep(tabs, n);
    TabsAfterKeys(fp, prior, tabs, n);
    TabsAfterKeys(fp, prior, tabs, n + 1);
    TabsAfterNewest(fp, prior, tabs, n);
    var got := TabsAfter(fp, prior, tabs, n + 1);
    var want := TabsAfter(fp, prior, tabs, n)[tabs[n].tabId := VisitedRow(fp, prior, tabs, n)];
    forall id | id in want ensures id in got && got[id] == want[id] {
      if id != tabs[n].tabId { TabsAfterRow(fp, prior, tabs, n, id); }
    }
  }

  /** No text, no columns; otherwise the length as it is and the hash as the signed integer of the same 64 bits. */
  lemma ColumnsMean(fingerprint: Option<Fingerprint>)
    ensures fingerprint.None? ==> HashColumn(fingerprint) == None && LenColumn(fingerprint) == None
    ensures fingerprint.Some? ==>
              && LenColumn(fingerprint) == Some(fingerprint.value.len) && HashColumn(fingerprint).Some?
              && -0x8000_0000_0000_0000 <= HashColumn(fingerprint).value < 0x8000_0000_0000_0000
              && (HashColumn(fingerprint).value - fingerprint.value.hash) % 0x1_0000_0000_0000_0000 == 0
  {}

  /** A snapshot fits exactly when all positions, tab ids and text lengths lie below 2^63. */
  lemma EncodableMeans(fp: Hasher, s: Snapshot)
    ensures Encodable(fp, s) <==>
            && |s| <= 0x8000_0000_0000_0000
            && forall i | 0 <= i < |s| ::
                 && |s[i].tabs| <= 0x8000_0000_0000_0000
                 && forall j | 0 <= j < |s[i].tabs| ::
                      && s[i].tabs[j].tabId < 0x8000_0000_0000_0000
                      && (s[i].tabs[j].content.Some? ==> fp(s[i].tabs[j].content.value).len < 0x8000_0000_0000_0000)
  {
    forall i | 0 <= i < |s|
      ensures EncodableTabs(fp, s[i].tabs) <==>
              && |s[i].tabs| <= 0x8000_0000_0000_0000
              && forall j | 0 <= j < |s[i].tabs| ::
                   && s[i].tabs[j].tabId < 0x8000_0000_0000_0000
                   && (s[i].tabs[j].content.Some? ==> fp(s[i].tabs[j].content.value).len < 0x8000_0000_0000_0000)
    {
      forall j | 0 <= j < |s[i].tabs|
        ensures EncodableTab(fp, s[i].tabs[j]) <==>
                && s[i].tabs[j].tabId < 0x8000_0000_0000_0000
                && (s[i].tabs[j].content.Some? ==> fp(s[i].tabs[j].content.value).len < 0x8000_0000_0000_0000)
      {}
      hide EncodableTab;
    }
    hide EncodableTabs;
  }

  lemma CastRoundTrip(hash: U64)
    ensures CastUnsigned(CastSigned(hash)) == hash
  {}

  lemma StoredFingerprintValid(fp: Hasher, row: TabRow)
    requires ValidRow(fp, row)
    ensures StoredFingerprint(row) == FingerprintOf(fp, row.content)
  {
    if row.content.Some? { CastRoundTrip(fp(row.content.value).hash); }
  }

  /** Content with the fingerprint of a stored row fits the columns, as the row did. */
  lemma SameFingerprintFits(fp: Hasher, row: TabRow, content: Option<string>)
    requires FittingRow(row) && StoredFingerprint(row) == FingerprintOf(fp, content)
    ensures content.Some? ==> fp(content.value).len <= I64_MAX
  {}

  lemma ReconcileFits(fp: Hasher, tab: TabState, position: int, stored: Option<TabRow>)
    requires EncodableTab(fp, tab) && (stored.Some? ==> FittingRow(stored.value))
    ensures FittingRow(Reconcile(fp, tab, position, stored))
  {}

  lemma ReconcileTabsFit(fp: Hasher, prior: map<int, TabRow>, tabs: seq<TabState>)
    requires FittingRows(prior) && EncodableTabs(fp, tabs)
    ensures FittingRows(ReconcileTabs(fp, prior, tabs))
  {
    var after := TabsAfter(fp, prior, tabs, |tabs|);
    forall id | id in after ensures id <= I64_MAX && FittingRow(after[id]) {
      if id in TabIds(tabs) {
        var i := LastIndex(tabs, |tabs|, id);
        assert EncodableTab(fp, tabs[i]);
        ReconcileFits(fp, tabs[i], i, StoredRow(prior, tabs, i));
      }
    }
  }

  lemma ReconcileValid(fp: Hasher, tab: TabState, position: int, stored: Option<TabRow>)
    requires EncodableTab(fp, tab) && (stored.Some? ==> ValidRow(fp, stored.value))
    ensures ValidRow(fp, Reconcile(fp, tab, position, stored))
  {}

  lemma ReconcileTabsValid(fp: Hasher, prior: map<int, TabRow>, tabs: seq<TabState>)
    requires ValidTabRows(fp, prior) && EncodableTabs(fp, tabs)
    ensures ValidTabRows(fp, ReconcileTabs(fp, prior, tabs))
  {
    var after := TabsAfter(fp, prior, tabs, |tabs|);
    forall id | id in after ensures 0 <= id <= I64_MAX && ValidRow(fp, after[id]) {
      if id in TabIds(tabs) {
        var i := LastIndex(tabs, |tabs|, id);
        assert EncodableTab(fp, tabs[i]);
        ReconcileValid(fp, tabs[i], i, StoredRow(prior, tabs, i));
      }
    }
  }

  lemma WithTabsSame(t: Tables, id: int)
    requires id in t
    ensures WithTabs(t, id, t[id].tabs) == t
  {}

  lemma WithTabsTwice(t: Tables, id: int, first: map<int, TabRow>, second: map<int, TabRow>)
    requires id in t
    ensures WithTabs(WithTabs(t, id, first), id, second) == WithTabs(t, id, second)
    ensures WithTabs(t, id, first)[id].tabs == first
  {}

  lemma SameEntry<K, V>(m: map<K, V>, k: K)
    requires k in m
    ensures m[k := m[k]] == m
  {}

  lemma RemoveNone<K, V>(m: map<K, V>)
    ensures m - {} == m
  {}

  lemma PlusAssociates(a: ApplyStats, b: ApplyStats, c: ApplyStats)
    ensures a + b + c == a + (b + c)
  {}

  lemma TimesStep(kind: RowWrite, n: nat)
    ensures Times(kind, 0) == NoStats
    ensures Times(kind, n) + multiset{kind} == Times(kind, n + 1)
  {}

  lemma EncodableTabsStep(fp: Hasher, tabs: seq<TabState>, n: nat)
    requires n < |tabs| && EncodableTabsPrefix(fp, tabs, n) && EncodableTab(fp, tabs[n])
    ensures EncodableTabsPrefix(fp, tabs, n + 1)
  {}

  lemma EncodableStep(fp: Hasher, s: Snapshot, n: nat)
    requires n < |s| && EncodablePrefix(fp, s, n) && EncodableTabs(fp, s[n].tabs)
    ensures EncodablePrefix(fp, s, n + 1)
  {}

  lemma SumAppend(parts: seq<ApplyStats>, part: ApplyStats)
    ensures SumOf(parts + [part]) == SumOf(parts) + part
  {
    assert (parts + [part])[..|parts|] == parts;
  }

  lemma LastApart<T>(longer: seq<T>, shorter: seq<T>)
    requires |longer| == |shorter| + 1 && forall i | 0 <= i < |shorter| :: longer[i] == shorter[i]
    ensures longer == shorter + [longer[|shorter|]]
  {}

  lemma TabPartsStep(fp: Hasher, prior: map<int, TabRow>, tabs: seq<TabState>, n: nat)
    requires n < |tabs|
    ensures SumOf(TabParts(fp, prior, tabs, n + 1))
            == SumOf(TabParts(fp, prior, tabs, n)) + TabWrites(fp, tabs[n], n, StoredRow(prior, tabs, n))
  {
    var part := TabWrites(fp, tabs[n], n, StoredRow(prior, tabs, n));
    LastApart(TabParts(fp, prior, tabs, n + 1), TabParts(fp, prior, tabs, n));
    SumAppend(TabParts(fp, prior, tabs, n), part);
  }

  lemma WindowPartsStep(fp: Hasher, t: Tables, s: Snapshot, n: nat)
    requires n < |s|
    ensures SumOf(WindowParts(fp, t, s, n + 1))
            == SumOf(WindowParts(fp, t, s, n)) + ReconcileWindowStats(fp, t, s[n], n)
  {
    var part := ReconcileWindowStats(fp, t, s[n], n);
    LastApart(WindowParts(fp, t, s, n + 1), WindowParts(fp, t, s, n));
    SumAppend(WindowParts(fp, t, s, n), part);
  }

  lemma DistinctUnseen(s: Snapshot, n: nat)
    requires DistinctWindows(s) && n < |s|
    ensures s[n].windowId !in SeenWindows(s, n)
    ensures s[n].windowId in WindowIds(s) && WindowAt(s, s[n].windowId) == n
  {
    assert s[n].windowId in WindowIds(s);
    var k := WindowAt(s, s[n].windowId);
    assert k == n;
  }

  lemma WindowsAfterNone(fp: Hasher, t: Tables, s: Snapshot)
    ensures WindowsAfter(fp, t, s, 0) == t
  {
    assert SeenWindows(s, 0) == {};
  }

  /** Visiting one more window updates exactly its rows. */
  lemma WindowsAfterStep(fp: Hasher, t: Tables, s: Snapshot, n: nat)
    requires DistinctWindows(s) && n < |s|
    ensures WindowsAfter(fp, t, s, n + 1) == WindowsAfter(fp, t, s, n)[s[n].windowId := ReconcileWindow(fp, t, s[n], n)]
    ensures TabsOf(WindowsAfter(fp, t, s, n), s[n].windowId) == TabsOf(t, s[n].windowId)
    ensures ReconcileWindow(fp, WindowsAfter(fp, t, s, n), s[n], n) == ReconcileWindow(fp, t, s[n], n)
    ensures ReconcileWindowStats(fp, WindowsAfter(fp, t, s, n), s[n], n) == ReconcileWindowStats(fp, t, s[n], n)
  {
    SeenWindowsStep(s, n);
    DistinctUnseen(s, n);
  }

  lemma {:induction false} VisitedKeys(fp: Hasher, t: Tables, s: Snapshot, n: nat)
    requires n <= |s|
    ensures VisitWindows(fp, t, s, n).Keys == t.Keys + SeenWindows(s, n)
  {
    hide ReconcileWindow;
    if n > 0 {
      VisitedKeys(fp, t, s, n - 1);
      SeenWindowsStep(s, n - 1);
    }
  }

  /** With distinct window ids every visit finds the rows of the start. */
  lemma {:induction false} VisitsAreIndependent(fp: Hasher, t: Tables, s: Snapshot, n: nat)
    requires DistinctWindows(s) && n <= |s|
    ensures VisitWindows(fp, t, s, n) == WindowsAfter(fp, t, s, n)
    ensures VisitWrites(fp, t, s, n) == SumOf(WindowParts(fp, t, s, n))
  {
    hide ReconcileWindow, ReconcileWindowStats, WindowsAfter, WindowParts, SumOf, DistinctWindows;
    if n == 0 {
      WindowsAfterNone(fp, t, s);
      NoParts(fp, t, s);
    } else {
      VisitsAreIndependent(fp, t, s, n - 1);
      WindowsAfterStep(fp, t, s, n - 1);
      WindowPartsStep(fp, t, s, n - 1);
    }
  }

  lemma NoParts(fp: Hasher, t: Tables, s: Snapshot)
    ensures SumOf(WindowParts(fp, t, s, 0)) == NoStats
  {}
}
