/** Keys of a map sorted by their position, ties by key. */
module Ordering {
  import opened Common

  /** Entry `a` sorts strictly before entry `b`. */
  predicate Before(pos: map<int, int>, a: int, b: int)
    requires a in pos && b in pos
  {
    pos[a] < pos[b] || (pos[a] == pos[b] && a < b)
  }

  /** `ks` lists exactly the keys of `pos`, by position and then by id. */
  ghost predicate IsOrdered(ks: seq<int>, pos: map<int, int>) {
    && (forall k :: k in ks <==> k in pos)
    && (forall i, j | 0 <= i < j < |ks| :: Before(pos, ks[i], ks[j]))
  }

  lemma OrderedIn(ks: seq<int>, pos: map<int, int>)
    requires IsOrdered(ks, pos)
    ensures forall i | 0 <= i < |ks| :: ks[i] in pos
  {
    forall i | 0 <= i < |ks| ensures ks[i] in pos { var k := ks[i]; assert k in ks; }
  }

  /** The first key stands before every other one. */
  lemma FirstIsLeast(ks: seq<int>, pos: map<int, int>, k: int)
    requires IsOrdered(ks, pos) && k in pos
    ensures |ks| > 0 && ks[0] in pos && (k == ks[0] || Before(pos, ks[0], k))
  {
    assert k in ks;
    var i :| 0 <= i < |ks| && ks[i] == k;
    assert ks[0] in ks;
    if i > 0 { assert Before(pos, ks[0], ks[i]); }
  }

  lemma RestKeys(ks: seq<int>, pos: map<int, int>, k: int)
    requires IsOrdered(ks, pos) && |ks| > 0
    ensures k in ks[1..] <==> k in pos && k != ks[0]
  {
    if k in ks[1..] {
      var i :| 1 <= i < |ks| && ks[i] == k;
      assert k in ks && Before(pos, ks[0], ks[i]);
    }
    if k in pos && k != ks[0] { assert k in ks; }
  }

  /** Behind the first key the others are in order. */
  lemma RestOrdered(ks: seq<int>, pos: map<int, int>)
    requires IsOrdered(ks, pos) && |ks| > 0
    ensures IsOrdered(ks[1..], pos - {ks[0]})
  {
    OrderedIn(ks, pos);
    forall k ensures k in ks[1..] <==> k in pos - {ks[0]} { RestKeys(ks, pos, k); }
    forall i, j | 0 <= i < j < |ks[1..]| ensures Before(pos - {ks[0]}, ks[1..][i], ks[1..][j]) {
      var a, b := i + 1, j + 1;
      assert Before(pos, ks[a], ks[b]);
      RestKeys(ks, pos, ks[a]);
      RestKeys(ks, pos, ks[b]);
    }
  }

  /** The order leaves no freedom. */
  lemma {:induction false} OrderedUnique(xs: seq<int>, ys: seq<int>, pos: map<int, int>)
    requires IsOrdered(xs, pos) && IsOrdered(ys, pos)
    ensures xs == ys
    decreases |xs|
  {
    OrderedIn(xs, pos);
    OrderedIn(ys, pos);
    if |xs| == 0 {
      if |ys| > 0 { FirstIsLeast(xs, pos, ys[0]); }
    } else {
      FirstIsLeast(ys, pos, xs[0]);
      FirstIsLeast(xs, pos, ys[0]);
      RestOrdered(xs, pos);
      RestOrdered(ys, pos);
      OrderedUnique(xs[1..], ys[1..], pos - {xs[0]});
      assert xs == [xs[0]] + xs[1..] && ys == [ys[0]] + ys[1..];
    }
  }

  /** `ks` lists the keys not in `todo` in order, and every key in `todo` belongs behind them. */
  ghost predicate SortedSoFar(ks: seq<int>, todo: set<int>, pos: map<int, int>) {
    && todo <= pos.Keys
    && (forall k :: k in ks <==> k in pos && k !in todo)
    && (forall i | 0 <= i < |ks| :: ks[i] in pos)
    && (forall i, j | 0 <= i < j < |ks| :: Before(pos, ks[i], ks[j]))
    && (forall i, k | 0 <= i < |ks| && k in todo :: Before(pos, ks[i], k))
  }

  lemma SortedNone(pos: map<int, int>)
    ensures SortedSoFar([], pos.Keys, pos)
  {}

  lemma SortedStep(ks: seq<int>, todo: set<int>, pos: map<int, int>, least: int)
    requires SortedSoFar(ks, todo, pos) && least in todo
    requires forall k | k in todo && k != least :: Before(pos, least, k)
    ensures SortedSoFar(ks + [least], todo - {least}, pos)
  {}

  lemma SortedAll(ks: seq<int>, pos: map<int, int>)
    requires SortedSoFar(ks, {}, pos)
    ensures IsOrdered(ks, pos)
  {}

  /** Sorts the entries by repeatedly taking the first one left. */
  method OrderBy(pos: map<int, int>) returns (ks: seq<int>)
    ensures IsOrdered(ks, pos)
  {
    ks := [];
    var todo := pos.Keys;
    SortedNone(pos);
    while todo != {}
      invariant todo <= pos.Keys && SortedSoFar(ks, todo, pos)
      decreases |todo|
    {
      hide SortedSoFar, IsOrdered;
      Inhabited(todo);
      var least :| least in todo;
      var rest := todo - {least};
      while rest != {}
        invariant rest <= todo && least in todo && least !in rest
        invariant forall k | k in todo && k !in rest && k != least :: Before(pos, least, k)
        decreases |rest|
      {
        Inhabited(rest);
        var k :| k in rest;
        if Before(pos, k, least) { least := k; }
        rest := rest - {k};
      }
      SortedStep(ks, todo, pos, least);
      ks := ks + [least];
      todo := todo - {least};
    }
    SortedAll(ks, pos);
  }

  lemma LeastExists(pos: map<int, int>, ids: set<int>) returns (least: int)
    requires ids <= pos.Keys && ids != {}
    ensures least in ids && forall k | k in ids && k != least :: Before(pos, least, k)
    decreases |ids|
  {
    Inhabited(ids);
    var first :| first in ids;
    least := first;
    if ids - {first} == {} {
      assert ids == {first};
    } else {
      var others := ids - {first};
      var other := LeastExists(pos, others);
      if Before(pos, other, first) { least := other; }
      assert forall k | k in ids && k != first :: k in others;
    }
  }

  lemma {:induction false} OrderExists(pos: map<int, int>) returns (ks: seq<int>)
    ensures IsOrdered(ks, pos)
    decreases |pos|
  {
    ks := [];
    if pos.Keys != {} {
      var least := LeastExists(pos, pos.Keys);
      var rest := pos - {least};
      assert rest.Keys == pos.Keys - {least};
      var others := OrderExists(rest);
      OrderedIn(others, rest);
      ks := [least] + others;
      forall i, j | 0 <= i < j < |ks| ensures Before(pos, ks[i], ks[j]) {
        if i > 0 { assert Before(rest, others[i - 1], others[j - 1]); }
        else { assert others[j - 1] in rest; }
      }
    }
  }

  ghost function OrderedKeys(pos: map<int, int>): (ks: seq<int>)
    ensures IsOrdered(ks, pos)
  {
    assert exists ks :: IsOrdered(ks, pos) by { var ks := OrderExists(pos); }
    var ks :| IsOrdered(ks, pos);
    ks
  }
}
