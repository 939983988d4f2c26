/** Offset ranges of a text: merging them and searching the merged list. */
module TextRanges {
  import opened Sorting

  /** The offsets from `start` up to, not including, `end`. */
  datatype Range = Range(start: nat, end: nat)

  predicate Contains(r: Range, offset: nat) {
    r.start <= offset < r.end
  }

  predicate Covers(ranges: seq<Range>, offset: nat) {
    exists i | 0 <= i < |ranges| :: Contains(ranges[i], offset)
  }

  ghost predicate SortedByStart(ranges: seq<Range>) {
    forall i, j | 0 <= i < j < |ranges| :: ranges[i].start <= ranges[j].start
  }

  /** Sorted, disjoint and not touching: each range ends before any later one starts. */
  ghost predicate Separate(ranges: seq<Range>) {
    SortedByStart(ranges) && forall i, j | 0 <= i < j < |ranges| :: ranges[i].end < ranges[j].start
  }

  lemma CoversAppend(ranges: seq<Range>, r: Range, offset: nat)
    ensures Covers(ranges + [r], offset) <==> Covers(ranges, offset) || Contains(r, offset)
  {
    var more := ranges + [r];
    if Covers(ranges, offset) {
      var i :| 0 <= i < |ranges| && Contains(ranges[i], offset);
      assert Contains(more[i], offset);
    }
    if Contains(r, offset) { assert Contains(more[|ranges|], offset); }
  }

  lemma CoversSame(a: seq<Range>, b: seq<Range>, offset: nat)
    requires multiset(a) == multiset(b)
    ensures Covers(a, offset) <==> Covers(b, offset)
  {
    if Covers(a, offset) {
      var i :| 0 <= i < |a| && Contains(a[i], offset);
      assert a[i] in multiset(b);
      assert a[i] in b;
    }
    if Covers(b, offset) {
      var i :| 0 <= i < |b| && Contains(b[i], offset);
      assert b[i] in multiset(a);
      assert b[i] in a;
    }
  }

  /** Widening the last range to a later end covers what both covered. */
  lemma WidenLast(merged: seq<Range>, r: Range, offset: nat)
    requires merged != [] && merged[|merged| - 1].start <= r.start <= merged[|merged| - 1].end
    ensures var last := merged[|merged| - 1];
            var wide := merged[|merged| - 1 := last.(end := if last.end < r.end then r.end else last.end)];
            Covers(wide, offset) <==> Covers(merged, offset) || Contains(r, offset)
  {
    var front, last := merged[..|merged| - 1], merged[|merged| - 1];
    var w := last.(end := if last.end < r.end then r.end else last.end);
    assert merged == front + [last] && merged[|merged| - 1 := w] == front + [w];
    CoversAppend(front, last, offset);
    CoversAppend(front, w, offset);
  }

  /** Merges ranges that overlap or touch. */
  method MergeRanges(ranges: seq<Range>) returns (merged: seq<Range>)
    ensures Separate(merged)
    ensures forall offset: nat :: Covers(merged, offset) <==> Covers(ranges, offset)
  {
    hide Covers, Contains;
    var sorted := SortByKey(ranges, (r: Range) => r.start);
    assert SortedByStart(sorted);
    merged := [];
    assert sorted[..0] == [];
    for i := 0 to |sorted|
      invariant Separate(merged)
      invariant merged != [] ==> i > 0 && merged[|merged| - 1].start <= sorted[i - 1].start
      invariant forall offset: nat :: Covers(merged, offset) <==> Covers(sorted[..i], offset)
    {
      var r := sorted[i];
      assert sorted[..i + 1] == sorted[..i] + [r];
      forall offset: nat
        ensures Covers(sorted[..i + 1], offset) <==> Covers(merged, offset) || Contains(r, offset)
      {
        CoversAppend(sorted[..i], r, offset);
      }
      if merged != [] && r.start <= merged[|merged| - 1].end {
        var last := merged[|merged| - 1];
        var wide := merged[|merged| - 1 := last.(end := if last.end < r.end then r.end else last.end)];
        forall offset: nat ensures Covers(wide, offset) <==> Covers(merged, offset) || Contains(r, offset) {
          WidenLast(merged, r, offset);
        }
        merged := wide;
      } else {
        forall offset: nat ensures Covers(merged + [r], offset) <==> Covers(merged, offset) || Contains(r, offset) {
          CoversAppend(merged, r, offset);
        }
        SeparateAppend(merged, r);
        merged := merged + [r];
      }
    }
    assert sorted[..|sorted|] == sorted;
    forall offset: nat { CoversSame(sorted, ranges, offset); }
  }

  lemma SeparateAppend(merged: seq<Range>, r: Range)
    requires Separate(merged)
    requires merged != [] ==> merged[|merged| - 1].start <= r.start && merged[|merged| - 1].end < r.start
    ensures Separate(merged + [r])
  {}

  /** Binary search among separate ranges. */
  method OffsetInRanges(offset: nat, ranges: seq<Range>) returns (found: bool)
    requires Separate(ranges)
    ensures found <==> Covers(ranges, offset)
  {
    var lo, hi := 0, |ranges|;
    while lo < hi
      invariant 0 <= lo <= hi <= |ranges|
      invariant forall i | 0 <= i < lo :: !Contains(ranges[i], offset)
      invariant forall i | hi <= i < |ranges| :: !Contains(ranges[i], offset)
    {
      var mid := (lo + hi) / 2;
      if offset < ranges[mid].start {
        hi := mid;
      } else if offset >= ranges[mid].end {
        assert forall i | 0 <= i < mid :: ranges[i].end < ranges[mid].start;
        lo := mid + 1;
      } else {
        assert Contains(ranges[mid], offset);
        return true;
      }
    }
    return false;
  }

  /** Two lists of nonempty separate ranges that cover the same offsets are the same list. */
  lemma {:induction false} SeparateIsCanonical(a: seq<Range>, b: seq<Range>)
    requires Separate(a) && Separate(b)
    requires forall i | 0 <= i < |a| :: a[i].start < a[i].end
    requires forall i | 0 <= i < |b| :: b[i].start < b[i].end
    requires forall offset: nat :: Covers(a, offset) <==> Covers(b, offset)
    ensures a == b
    decreases |a|
  {
    if a == [] {
      if b != [] { assert Contains(b[0], b[0].start) && Covers(b, b[0].start); }
    } else {
      assert Contains(a[0], a[0].start) && Covers(a, a[0].start);
      FirstRange(a, b);
      FirstRange(b, a);
      FirstEnd(a, b);
      FirstEnd(b, a);
      assert a[0] == b[0];
      forall offset: nat ensures Covers(a[1..], offset) <==> Covers(b[1..], offset) {
        RestCovers(a, offset);
        RestCovers(b, offset);
      }
      SeparateIsCanonical(a[1..], b[1..]);
      assert a == [a[0]] + a[1..] && b == [b[0]] + b[1..];
    }
  }

  lemma FirstRange(a: seq<Range>, b: seq<Range>)
    requires Separate(a) && Separate(b) && a != []
    requires a[0].start < a[0].end
    requires forall offset: nat :: Covers(a, offset) ==> Covers(b, offset)
    ensures b != [] && b[0].start <= a[0].start
  {
    assert Contains(a[0], a[0].start) && Covers(a, a[0].start);
    var i :| 0 <= i < |b| && Contains(b[i], a[0].start);
    assert b[0].start <= b[i].start;
  }

  lemma FirstEnd(a: seq<Range>, b: seq<Range>)
    requires Separate(a) && Separate(b) && a != [] && b != [] && a[0].start == b[0].start
    requires a[0].start < a[0].end && b[0].start < b[0].end
    requires forall offset: nat :: Covers(a, offset) ==> Covers(b, offset)
    ensures a[0].end <= b[0].end
  {
    EndUncovered(b);
    FirstUncovered(a, b[0].end);
  }

  lemma FirstUncovered(a: seq<Range>, offset: nat)
    requires a != [] && !Covers(a, offset)
    ensures !Contains(a[0], offset)
  {}

  /** Separate ranges leave a gap behind each. */
  lemma EndUncovered(b: seq<Range>)
    requires Separate(b) && b != []
    ensures !Covers(b, b[0].end)
  {
    forall i | 0 <= i < |b| ensures !Contains(b[i], b[0].end) {
      if i > 0 { assert b[0].end < b[i].start; }
    }
  }

  lemma RestCovers(a: seq<Range>, offset: nat)
    requires Separate(a) && a != []
    ensures Covers(a[1..], offset) <==> Covers(a, offset) && offset >= a[0].end && offset >= a[0].start
  {
    if Covers(a[1..], offset) {
      var i :| 0 <= i < |a[1..]| && Contains(a[1..][i], offset);
      assert Contains(a[i + 1], offset) && a[0].end < a[i + 1].start;
    }
    if Covers(a, offset) && offset >= a[0].end && offset >= a[0].start {
      var i :| 0 <= i < |a| && Contains(a[i], offset);
      assert Contains(a[1..][i - 1], offset);
    }
  }
}
