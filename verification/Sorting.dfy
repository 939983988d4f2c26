/** Sorting by an integer key; elements with equal keys may come in any order. */
module Sorting {

  ghost predicate SortedBy<T(!new)>(xs: seq<T>, key: T -> int) {
    forall i, j | 0 <= i < j < |xs| :: key(xs[i]) <= key(xs[j])
  }

  /** Puts an element behind all whose keys are no larger. */
  method Insert<T(!new)>(sorted: seq<T>, x: T, key: T -> int) returns (more: seq<T>)
    requires SortedBy(sorted, key)
    ensures SortedBy(more, key) && multiset(more) == multiset(sorted) + multiset{x}
  {
    hide SortedBy;
    var i := |sorted|;
    while i > 0 && key(x) < key(sorted[i - 1])
      invariant 0 <= i <= |sorted|
      invariant i < |sorted| ==> key(x) < key(sorted[i])
    {
      i := i - 1;
    }
    more := sorted[..i] + [x] + sorted[i..];
    InsertSorted(sorted, x, key, i, more);
    InsertCounts(sorted, x, i);
  }

  lemma InsertCounts<T(!new)>(sorted: seq<T>, x: T, i: nat)
    requires i <= |sorted|
    ensures multiset(sorted[..i] + [x] + sorted[i..]) == multiset(sorted) + multiset{x}
  {
    assert sorted == sorted[..i] + sorted[i..];
  }

  lemma InsertSorted<T(!new)>(sorted: seq<T>, x: T, key: T -> int, i: nat, more: seq<T>)
    requires SortedBy(sorted, key) && i <= |sorted|
    requires i > 0 ==> key(sorted[i - 1]) <= key(x)
    requires i < |sorted| ==> key(x) <= key(sorted[i])
    requires more == sorted[..i] + [x] + sorted[i..]
    ensures SortedBy(more, key)
  {
    forall k | 0 <= k < |more| ensures more[k] == if k < i then sorted[k] else if k == i then x else sorted[k - 1] {}
    forall k | 0 <= k < i
      ensures key(sorted[k]) <= key(x)
    {
      assert k < i - 1 ==> key(sorted[k]) <= key(sorted[i - 1]);
    }
    forall k | i <= k < |sorted| ensures key(x) <= key(sorted[k]) { assert i < k ==> key(sorted[i]) <= key(sorted[k]); }
  }

  method SortByKey<T(!new)>(xs: seq<T>, key: T -> int) returns (sorted: seq<T>)
    ensures SortedBy(sorted, key) && multiset(sorted) == multiset(xs)
  {
    sorted := [];
    for i := 0 to |xs|
      invariant SortedBy(sorted, key) && multiset(sorted) == multiset(xs[..i])
    {
      assert xs[..i + 1] == xs[..i] + [xs[i]];
      sorted := Insert(sorted, xs[i], key);
    }
    assert xs[..|xs|] == xs;
  }
}
