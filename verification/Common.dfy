/** Types and sequence facts shared by every module of the project. */
module Common {

  datatype Option<+T> = None | Some(value: T)

  /** A fallible result; error messages carry no behaviour and are dropped. */
  datatype Result<+T> = Ok(value: T) | Err

  const I64_MAX: int := 0x7FFF_FFFF_FFFF_FFFF
  const I64_MIN: int := -0x8000_0000_0000_0000
  const U64_MAX: int := 0xFFFF_FFFF_FFFF_FFFF

  type I64 = x: int | I64_MIN <= x <= I64_MAX
  type U64 = x: int | 0 <= x <= U64_MAX

  /** A nonempty set has a member to pick. */
  lemma Inhabited(xs: set<int>)
    ensures xs == {} || exists x :: x in xs
  {
    if !exists x :: x in xs { assert xs == {}; }
  }

  /** Removing keys one at a time and at once agree. */
  lemma RemoveStep<K, V>(m: map<K, V>, gone: set<K>, k: K)
    ensures m - gone - {k} == m - (gone + {k})
  {}

  /** Positions below `n`, in increasing order. */
  ghost predicate Increasing(ps: seq<nat>, n: nat) {
    && (forall i | 0 <= i < |ps| :: ps[i] < n)
    && (forall i, j | 0 <= i < j < |ps| :: ps[i] < ps[j])
  }

  /** One more position at the end. */
  lemma IncreasingMore(ps: seq<nat>, n: nat)
    requires Increasing(ps, n)
    ensures Increasing(ps, n + 1) && Increasing(ps + [n], n + 1)
    ensures forall p: nat :: p in ps + [n] <==> p in ps || p == n
    ensures n !in ps
  {
    forall p | p in ps ensures p < n { var i :| 0 <= i < |ps| && ps[i] == p; }
  }

  /** `out` holds exactly the elements of `xs` that `keep` marks, each once and in order. */
  ghost predicate Picks<T>(out: seq<T>, xs: seq<T>, keep: seq<bool>, ps: seq<nat>) {
    && |keep| == |xs| && Increasing(ps, |xs|) && |out| == |ps|
    && (forall p: nat | p < |xs| :: p in ps <==> keep[p])
    && (forall k | 0 <= k < |ps| :: out[k] == xs[ps[k]])
  }

  lemma PicksNone<T>()
    ensures Picks<T>([], [], [], [])
  {}

  lemma PicksMore<T>(out: seq<T>, xs: seq<T>, keep: seq<bool>, ps: seq<nat>, x: T, kept: bool)
    requires Picks(out, xs, keep, ps)
    ensures Picks(if kept then out + [x] else out, xs + [x], keep + [kept], if kept then ps + [|xs|] else ps)
  {
    IncreasingMore(ps, |xs|);
    hide Increasing;
  }

  lemma PicksLength<T>(out: seq<T>, xs: seq<T>, keep: seq<bool>, ps: seq<nat>)
    requires Picks(out, xs, keep, ps)
    ensures |keep| == |xs|
  {}
}
