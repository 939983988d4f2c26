/** Several handles over one database, each committing sessions of its own windows. */
module StateIsolation {
  import opened SessionModel
  import opened StateRows
  import opened Ordering
  import opened RowOrder
  import opened StateTheorems
  import opened StateRoundTrip

  /** One committed `apply`; a failed one changes neither the rows nor the handle. */
  datatype Commit = Commit(handle: nat, snapshot: Snapshot)

  datatype World = World(tables: Tables, owned: map<nat, set<int>>)

  function Owned(w: World, h: nat): set<int> {
    if h in w.owned then w.owned[h] else {}
  }

  ghost function Next(fp: Hasher, w: World, c: Commit): World {
    World(Apply(fp, w.tables, Owned(w, c.handle), c.snapshot), w.owned[c.handle := WindowIds(c.snapshot)])
  }

  /** The world after the commits of a trace, in order. */
  ghost function Run(fp: Hasher, w: World, trace: seq<Commit>): World {
    if |trace| == 0 then w else Next(fp, Run(fp, w, trace[..|trace| - 1]), trace[|trace| - 1])
  }

  /** The commits of one handle. */
  function Only(trace: seq<Commit>, h: nat): seq<Commit> {
    if |trace| == 0 then []
    else Only(trace[..|trace| - 1], h) + if trace[|trace| - 1].handle == h then [trace[|trace| - 1]] else []
  }

  function Restrict(t: Tables, ids: set<int>): Tables {
    map id | id in t && id in ids :: t[id]
  }

  /** Which windows each handle may hold; no window belongs to two handles. */
  type Scopes = nat -> set<int>

  ghost predicate Disjoint(scope: Scopes) {
    forall a: nat, b: nat | a != b :: scope(a) !! scope(b)
  }

  ghost predicate CommitOk(fp: Hasher, scope: Scopes, c: Commit) {
    WindowIds(c.snapshot) <= scope(c.handle) && DistinctIds(c.snapshot) && Encodable(fp, c.snapshot)
  }

  ghost predicate TraceOk(fp: Hasher, scope: Scopes, trace: seq<Commit>) {
    forall i | 0 <= i < |trace| :: CommitOk(fp, scope, trace[i])
  }

  /** No handle owns a window outside its scope, as after opening without claiming. */
  ghost predicate Scoped(scope: Scopes, w: World) {
    forall h: nat :: Owned(w, h) <= scope(h)
  }

  /******* One commit *******/

  lemma RestrictApply(fp: Hasher, t: Tables, owned: set<int>, s: Snapshot, ids: set<int>)
    requires WindowIds(s) <= ids && DistinctWindows(s)
    ensures Restrict(Apply(fp, t, owned, s), ids) == Apply(fp, Restrict(t, ids), owned, s)
  {
    hide Apply, ReconcileTabs;
    ApplyRows(fp, t, owned, s);
    ApplyRows(fp, Restrict(t, ids), owned, s);
    var got, want := Restrict(Apply(fp, t, owned, s), ids), Apply(fp, Restrict(t, ids), owned, s);
    forall id | id in want ensures got[id] == want[id] {
      if id in WindowIds(s) { var i := WindowAt(s, id); }
    }
  }

  lemma DisjointApply(fp: Hasher, t: Tables, owned: set<int>, s: Snapshot, ids: set<int>)
    requires WindowIds(s) !! ids && owned !! ids && DistinctWindows(s)
    ensures Restrict(Apply(fp, t, owned, s), ids) == Restrict(t, ids)
  {
    hide Apply, SeenWindows;
    ApplyRows(fp, t, owned, s);
    forall id | id in ids ensures id !in WindowIds(s) && id !in owned {}
    var got, want := Restrict(Apply(fp, t, owned, s), ids), Restrict(t, ids);
    assert got.Keys == want.Keys;
    forall id | id in want ensures got[id] == want[id] {}
  }

  lemma NextScoped(fp: Hasher, scope: Scopes, w: World, c: Commit)
    requires CommitOk(fp, scope, c) && Scoped(scope, w)
    ensures Scoped(scope, Next(fp, w, c)) && DistinctWindows(c.snapshot)
    ensures WindowIds(c.snapshot) <= scope(c.handle) && Owned(w, c.handle) <= scope(c.handle)
  {
    hide Apply, Encodable, DistinctWindows, SeenWindows;
    forall h: nat ensures Owned(Next(fp, w, c), h) <= scope(h) {
      assert Owned(w, h) <= scope(h);
    }
  }

  lemma {:induction false} RunScoped(fp: Hasher, scope: Scopes, w: World, trace: seq<Commit>)
    requires TraceOk(fp, scope, trace) && Scoped(scope, w)
    ensures Scoped(scope, Run(fp, w, trace))
  {
    hide Next, Scoped, CommitOk;
    if |trace| > 0 {
      var front, c := trace[..|trace| - 1], trace[|trace| - 1];
      RunScoped(fp, scope, w, front);
      assert CommitOk(fp, scope, c);
      NextScoped(fp, scope, Run(fp, w, front), c);
    }
  }

  /******* Non-interference *******/

  /** Whatever the other handles commit in between, a handle's windows follow its own commits. */
  lemma {:induction false} NonInterference(fp: Hasher, scope: Scopes, w: World, trace: seq<Commit>, h: nat)
    requires Disjoint(scope) && TraceOk(fp, scope, trace) && Scoped(scope, w)
    ensures Restrict(Run(fp, w, trace).tables, scope(h)) == Restrict(Run(fp, w, Only(trace, h)).tables, scope(h))
    ensures Owned(Run(fp, w, trace), h) == Owned(Run(fp, w, Only(trace, h)), h)
  {
    hide Apply, CommitOk, Scoped, Restrict, DistinctWindows, SeenWindows;
    if |trace| == 0 {
      assert Only(trace, h) == [];
    } else {
      var front, c := trace[..|trace| - 1], trace[|trace| - 1];
      NonInterference(fp, scope, w, front, h);
      RunScoped(fp, scope, w, front);
      assert CommitOk(fp, scope, c);
      NextScoped(fp, scope, Run(fp, w, front), c);
      var whole, own := Run(fp, w, front), Run(fp, w, Only(front, h));
      if c.handle == h {
        RunLast(fp, w, Only(front, h), c);
        SameCommit(fp, whole, own, c, scope(h));
      } else {
        assert Only(trace, h) == Only(front, h);
        assert scope(c.handle) !! scope(h);
        DisjointApply(fp, whole.tables, Owned(whole, c.handle), c.snapshot, scope(h));
      }
    }
  }

  /** A commit acts on a handle's windows through their rows alone. */
  lemma SameCommit(fp: Hasher, a: World, b: World, c: Commit, ids: set<int>)
    requires WindowIds(c.snapshot) <= ids && DistinctWindows(c.snapshot)
    requires Restrict(a.tables, ids) == Restrict(b.tables, ids) && Owned(a, c.handle) == Owned(b, c.handle)
    ensures Restrict(Next(fp, a, c).tables, ids) == Restrict(Next(fp, b, c).tables, ids)
    ensures Owned(Next(fp, a, c), c.handle) == Owned(Next(fp, b, c), c.handle)
  {
    hide Apply, Restrict, DistinctWindows;
    RestrictApply(fp, a.tables, Owned(a, c.handle), c.snapshot, ids);
    RestrictApply(fp, b.tables, Owned(b, c.handle), c.snapshot, ids);
  }

  /******* What each handle finds *******/

  lemma {:induction false} RunAppend(fp: Hasher, w: World, before: seq<Commit>, after: seq<Commit>)
    ensures Run(fp, w, before + after) == Run(fp, Run(fp, w, before), after)
  {
    hide Next;
    if |after| == 0 {
      assert before + after == before;
    } else {
      var front := after[..|after| - 1];
      RunAppend(fp, w, before, front);
      assert (before + after)[..|before + after| - 1] == before + front;
    }
  }

  lemma {:induction false} OnlyNone(trace: seq<Commit>, h: nat)
    requires forall i | 0 <= i < |trace| :: trace[i].handle != h
    ensures Only(trace, h) == []
  {
    if |trace| > 0 { OnlyNone(trace[..|trace| - 1], h); }
  }

  lemma {:induction false} RunValid(fp: Hasher, scope: Scopes, w: World, trace: seq<Commit>)
    requires TraceOk(fp, scope, trace) && ValidTables(fp, w.tables)
    ensures ValidTables(fp, Run(fp, w, trace).tables)
  {
    hide Apply, ValidTables, Encodable;
    if |trace| > 0 {
      var front, c := trace[..|trace| - 1], trace[|trace| - 1];
      RunValid(fp, scope, w, front);
      assert CommitOk(fp, scope, c);
      ApplyValid(fp, Run(fp, w, front).tables, Owned(Run(fp, w, front), c.handle), c.snapshot);
    }
  }

  /** A handle that found no window of its own owns every stored window of its scope. */
  lemma {:induction false} RunOwns(fp: Hasher, scope: Scopes, w: World, trace: seq<Commit>, h: nat)
    requires Disjoint(scope) && TraceOk(fp, scope, trace) && Scoped(scope, w) && w.tables.Keys * scope(h) <= Owned(w, h)
    ensures Run(fp, w, trace).tables.Keys * scope(h) <= Owned(Run(fp, w, trace), h)
  {
    hide Apply, DistinctWindows, Encodable;
    if |trace| > 0 {
      var front, c := trace[..|trace| - 1], trace[|trace| - 1];
      RunOwns(fp, scope, w, front, h);
      RunScoped(fp, scope, w, front);
      assert CommitOk(fp, scope, c);
      var prior := Run(fp, w, front);
      ApplyRows(fp, prior.tables, Owned(prior, c.handle), c.snapshot);
      if c.handle != h { assert scope(c.handle) !! scope(h); }
    }
  }

  /** Reading some windows depends on their rows alone. */
  lemma LoadRestricted(t: Tables, ids: set<int>)
    requires DecodableTables(t)
    ensures DecodableTables(Restrict(t, ids))
    ensures Select(LoadSpec(t), ids) == LoadSpec(Restrict(t, ids))
  {
    hide Select, LoadWindow, Decodable, OrderedKeys, Filter;
    var all, part := WindowPositions(t), WindowPositions(Restrict(t, ids));
    var ks := OrderedKeys(all);
    OrderedIn(ks, all);
    SelectLoaded(t, ks, ids);
    FilterOrdered(ks, ids, all);
    var kept := Filter(ks, ids);
    SameOrder(kept, all, part);
    OrderedUnique(kept, OrderedKeys(part), part);
    assert LoadIds(t, kept) == LoadIds(Restrict(t, ids), kept);
  }

  /** A handle's last commit is what its windows read back as, whatever committed around it. */
  lemma EachHandleKeepsItsSession(fp: Hasher, scope: Scopes, w: World, before: seq<Commit>, h: nat, s: Snapshot,
                                  after: seq<Commit>)
    requires Disjoint(scope) && Scoped(scope, w) && ValidTables(fp, w.tables)
    requires w.tables.Keys * scope(h) <= Owned(w, h)
    requires TraceOk(fp, scope, before) && CommitOk(fp, scope, Commit(h, s)) && TraceOk(fp, scope, after)
    requires forall i | 0 <= i < |after| :: after[i].handle != h
    ensures var final := Run(fp, w, before + [Commit(h, s)] + after).tables;
            && DecodableTables(final)
            && final.Keys * scope(h) == WindowIds(s)
            && Select(LoadSpec(final), scope(h)) == Kept(fp, Run(fp, w, before).tables, s)
  {
    hide Apply, Select, LoadSpec, Kept, Encodable, ValidTables, DecodableTables, Restrict, Owned, Disjoint, Scoped,
         Only;
    var prior := Run(fp, w, before);
    var committed := Next(fp, prior, Commit(h, s));
    var final := Run(fp, w, before + [Commit(h, s)] + after).tables;
    RunAppend(fp, w, before + [Commit(h, s)], after);
    RunLast(fp, w, before, Commit(h, s));
    AppendOk(fp, scope, before, Commit(h, s));
    RunValid(fp, scope, w, before);
    RunScoped(fp, scope, w, before + [Commit(h, s)]);
    NonInterference(fp, scope, committed, after, h);
    OnlyNone(after, h);
    assert Restrict(final, scope(h)) == Restrict(committed.tables, scope(h));
    RunOwns(fp, scope, w, before, h);
    CommittedKeys(fp, prior, h, s, scope(h), final);
    RunValid(fp, scope, w, before + [Commit(h, s)]);
    RunValid(fp, scope, committed, after);
    ValidDecodable(fp, final);
    ValidDecodable(fp, committed.tables);
    LoadRestricted(final, scope(h));
    LoadRestricted(committed.tables, scope(h));
    LoadRestricted(committed.tables, WindowIds(s));
    LoadAfterApply(fp, prior.tables, Owned(prior, h), s);
  }

  lemma RunLast(fp: Hasher, w: World, before: seq<Commit>, c: Commit)
    ensures Run(fp, w, before + [c]) == Next(fp, Run(fp, w, before), c)
  {
    assert (before + [c])[..|before|] == before;
  }

  lemma AppendOk(fp: Hasher, scope: Scopes, before: seq<Commit>, c: Commit)
    requires TraceOk(fp, scope, before) && CommitOk(fp, scope, c)
    ensures TraceOk(fp, scope, before + [c])
  {}

  lemma ValidDecodable(fp: Hasher, t: Tables)
    requires ValidTables(fp, t)
    ensures DecodableTables(t)
  {}

  /** Within its scope, a handle's commit leaves exactly the windows of its snapshot. */
  lemma CommittedKeys(fp: Hasher, prior: World, h: nat, s: Snapshot, ids: set<int>, final: Tables)
    requires DistinctWindows(s) && WindowIds(s) <= ids && prior.tables.Keys * ids <= Owned(prior, h)
    requires Restrict(final, ids) == Restrict(Next(fp, prior, Commit(h, s)).tables, ids)
    ensures final.Keys * ids == WindowIds(s)
    ensures Restrict(Next(fp, prior, Commit(h, s)).tables, ids)
            == Restrict(Next(fp, prior, Commit(h, s)).tables, WindowIds(s))
  {
    hide Apply;
    var t := Apply(fp, prior.tables, Owned(prior, h), s);
    ApplyRows(fp, prior.tables, Owned(prior, h), s);
    assert Restrict(final, ids).Keys == final.Keys * ids;
    assert Restrict(t, ids).Keys == t.Keys * ids;
  }
}
