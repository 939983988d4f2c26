/** A snapshot that lists a window more than once: every visit builds on the one before. */
module StateRepeats {
  import opened SessionModel
  import opened StateRows
  import opened RowFacts

  /** With distinct window ids the visits do not see each other. */
  lemma InOrderIsApply(fp: Hasher, t: Tables, owned: set<int>, s: Snapshot)
    requires DistinctWindows(s)
    ensures ApplyInOrder(fp, t, owned, s) == Apply(fp, t, owned, s)
    ensures InOrderWrites(fp, t, owned, s) == ApplyWrites(fp, t, owned, s)
  {
    hide VisitWindows, VisitWrites, WindowsAfter, WindowParts, SumOf;
    VisitsAreIndependent(fp, t, s, |s|);
  }

  ghost predicate LastVisit(s: Snapshot, n: nat, i: nat)
    requires n <= |s|
  {
    i < n && forall j | i < j < n :: s[j].windowId != s[i].windowId
  }

  lemma {:induction false} VisitStays(fp: Hasher, t: Tables, s: Snapshot, n: nat, i: nat)
    requires n <= |s| && LastVisit(s, n, i)
    ensures s[i].windowId in VisitWindows(fp, t, s, n)
    ensures VisitWindows(fp, t, s, n)[s[i].windowId] == ReconcileWindow(fp, VisitWindows(fp, t, s, i), s[i], i)
  {
    hide ReconcileWindow;
    if i < n - 1 {
      assert LastVisit(s, n - 1, i);
      VisitStays(fp, t, s, n - 1, i);
    }
  }

  lemma {:induction false} UnvisitedStays(fp: Hasher, t: Tables, s: Snapshot, n: nat, id: int)
    requires n <= |s| && id in t && id !in SeenWindows(s, n)
    ensures id in VisitWindows(fp, t, s, n) && VisitWindows(fp, t, s, n)[id] == t[id]
  {
    hide ReconcileWindow;
    if n > 0 {
      SeenWindowsStep(s, n - 1);
      UnvisitedStays(fp, t, s, n - 1, id);
    }
  }

  /**
   The last listing of a window decides its row and its tabs, reconciled with the tabs the
   earlier listings left; owned windows that are not listed are gone, others untouched.
   */
  lemma LastListingDecides(fp: Hasher, t: Tables, owned: set<int>, s: Snapshot)
    ensures var u := ApplyInOrder(fp, t, owned, s);
            && u.Keys == t.Keys - owned + WindowIds(s)
            && (forall i: nat | LastVisit(s, |s|, i) ::
                  && s[i].windowId in u
                  && u[s[i].windowId] == ReconcileWindow(fp, VisitWindows(fp, t, s, i), s[i], i))
            && (forall id | id in t && id !in owned && id !in WindowIds(s) :: u[id] == t[id])
  {
    hide ReconcileWindow, VisitWindows;
    VisitedKeys(fp, t, s, |s|);
    var u := ApplyInOrder(fp, t, owned, s);
    forall i: nat | LastVisit(s, |s|, i)
      ensures s[i].windowId in u
      ensures u[s[i].windowId] == ReconcileWindow(fp, VisitWindows(fp, t, s, i), s[i], i)
    {
      VisitStays(fp, t, s, |s|, i);
      assert s[i].windowId in WindowIds(s);
    }
    forall id | id in t && id !in owned && id !in WindowIds(s) ensures u[id] == t[id] {
      UnvisitedStays(fp, t, s, |s|, id);
    }
  }

  /** Stored hash and length stay the fingerprint of the stored text. */
  lemma {:induction false} VisitsValid(fp: Hasher, t: Tables, s: Snapshot, n: nat)
    requires ValidTables(fp, t) && Encodable(fp, s) && n <= |s|
    ensures ValidTables(fp, VisitWindows(fp, t, s, n))
  {
    hide ReconcileTabs, EncodableTabs, ValidTabRows;
    if n > 0 {
      VisitsValid(fp, t, s, n - 1);
      var u := VisitWindows(fp, t, s, n - 1);
      assert ValidTabRows(fp, TabsOf(u, s[n - 1].windowId)) by { NoRowsValid(fp); }
      ReconcileTabsValid(fp, TabsOf(u, s[n - 1].windowId), s[n - 1].tabs);
    }
  }

  lemma NoRowsValid(fp: Hasher)
    ensures ValidTabRows(fp, map[])
  {}

  lemma InOrderValid(fp: Hasher, t: Tables, owned: set<int>, s: Snapshot)
    requires ValidTables(fp, t) && Encodable(fp, s)
    ensures ValidTables(fp, ApplyInOrder(fp, t, owned, s))
  {
    hide VisitWindows, Encodable, ValidTabRows;
    VisitsValid(fp, t, s, |s|);
  }
}
