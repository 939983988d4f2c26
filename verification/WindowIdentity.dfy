/** Window identities: any number of concurrent `allocate_id` calls over one atomic counter. */
module WindowIdentity {
  import opened Common

  /** A call reads the clock, raises the counter to it, then takes the next value. */
  datatype Pc = Idle | Clocked(now: int, before: nat) | Raised(now: int, before: nat)

  /** A returned identity, its clock reading, and how many had been returned when the call began. */
  datatype Returned = Returned(id: int, now: int, before: nat)

  datatype State = State(last: int, pcs: map<nat, Pc>, returned: seq<Returned>, readings: seq<int>)

  datatype Event = ReadClock(thread: nat, now: int) | FetchMax(thread: nat) | FetchAdd(thread: nat)

  const Init := State(0, map[], [], [])

  /** 64-bit addition of one, wrapping around. */
  function Increment(x: int): int {
    if x == I64_MAX then I64_MIN else x + 1
  }

  function PcOf(s: State, t: nat): Pc {
    if t in s.pcs then s.pcs[t] else Idle
  }

  /** A clock reading is a count of nanoseconds that fits, or zero. */
  function Step(s: State, e: Event): Option<State> {
    match e
    case ReadClock(t, now) =>
      if PcOf(s, t).Idle? && 0 <= now <= I64_MAX
      then Some(s.(pcs := s.pcs[t := Clocked(now, |s.returned|)], readings := s.readings + [now]))
      else None
    case FetchMax(t) =>
      if PcOf(s, t).Clocked? then
        var pc := s.pcs[t];
        Some(s.(last := if s.last < pc.now then pc.now else s.last, pcs := s.pcs[t := Raised(pc.now, pc.before)]))
      else None
    case FetchAdd(t) =>
      if PcOf(s, t).Raised? then
        var pc := s.pcs[t];
        Some(s.(last := Increment(s.last), pcs := s.pcs[t := Idle],
                returned := s.returned + [Returned(Increment(s.last), pc.now, pc.before)]))
      else None
  }

  function Run(s: State, events: seq<Event>): Option<State> {
    if |events| == 0 then Some(s)
    else
      var front := Run(s, events[..|events| - 1]);
      if front.None? then None else Step(front.value, events[|events| - 1])
  }

  /** All clock readings stay below `bound`, and the calls fit between it and the largest integer. */
  ghost predicate Fits(s: State, bound: int) {
    && 0 <= bound && bound + |s.readings| <= I64_MAX
    && forall i | 0 <= i < |s.readings| :: s.readings[i] <= bound
  }

  /** Threads between two of the steps of a call. */
  ghost predicate Active(s: State, ts: set<nat>) {
    forall t :: t in ts <==> !PcOf(s, t).Idle?
  }

  ghost predicate Inv(s: State, bound: int) {
    && 0 <= s.last <= bound + |s.returned|
    && (exists ts: set<nat> :: Active(s, ts) && |ts| + |s.returned| == |s.readings|)
    && (forall t :: PcOf(s, t).Clocked? ==> PcOf(s, t).now <= bound && PcOf(s, t).before <= |s.returned|)
    && (forall t :: PcOf(s, t).Raised? ==> PcOf(s, t).now <= s.last && PcOf(s, t).before <= |s.returned|)
    && Ordered(s.returned)
    && (forall i | 0 <= i < |s.returned| :: s.returned[i].id <= s.last)
  }

  /** Identities increase in the order they are taken, and exceed their clock readings. */
  ghost predicate Ordered(returned: seq<Returned>) {
    && (forall i, j | 0 <= i < j < |returned| :: returned[i].id < returned[j].id)
    && (forall i | 0 <= i < |returned| :: returned[i].now < returned[i].id && returned[i].before <= i)
  }

  lemma ActiveStep(s: State, e: Event, ts: set<nat>) returns (ts': set<nat>)
    requires Step(s, e).Some? && Active(s, ts) && |ts| + |s.returned| == |s.readings|
    ensures var s' := Step(s, e).value; Active(s', ts') && |ts'| + |s'.returned| == |s'.readings|
  {
    match e
    case ReadClock(t, now) => ts' := ts + {t};
    case FetchMax(t) => ts' := ts;
    case FetchAdd(t) => ts' := ts - {t};
  }

  lemma ClockStep(s: State, t: nat, now: int, bound: int)
    requires Inv(s, bound) && Step(s, ReadClock(t, now)).Some? && now <= bound
    ensures Inv(Step(s, ReadClock(t, now)).value, bound)
  {
    var ts: set<nat> :| Active(s, ts) && |ts| + |s.returned| == |s.readings|;
    var ts' := ActiveStep(s, ReadClock(t, now), ts);
    hide Active;
    var s' := Step(s, ReadClock(t, now)).value;
    assert forall u :: u != t ==> PcOf(s', u) == PcOf(s, u);
  }

  lemma MaxStep(s: State, t: nat, bound: int)
    requires Inv(s, bound) && Step(s, FetchMax(t)).Some?
    ensures Inv(Step(s, FetchMax(t)).value, bound)
  {
    var ts: set<nat> :| Active(s, ts) && |ts| + |s.returned| == |s.readings|;
    var ts' := ActiveStep(s, FetchMax(t), ts);
    hide Active;
    var s' := Step(s, FetchMax(t)).value;
    assert forall u :: u != t ==> PcOf(s', u) == PcOf(s, u);
  }

  lemma AddStep(s: State, t: nat, bound: int)
    requires Inv(s, bound) && Fits(s, bound) && Step(s, FetchAdd(t)).Some?
    ensures Inv(Step(s, FetchAdd(t)).value, bound)
    ensures Step(s, FetchAdd(t)).value.last == s.last + 1
  {
    var ts: set<nat> :| Active(s, ts) && |ts| + |s.returned| == |s.readings|;
    assert t in ts;
    OneLess(ts, t);
    var ts' := ActiveStep(s, FetchAdd(t), ts);
    hide Active;
    var s' := Step(s, FetchAdd(t)).value;
    assert forall u :: u != t ==> PcOf(s', u) == PcOf(s, u);
  }

  lemma OneLess(ts: set<nat>, t: nat)
    requires t in ts
    ensures |ts| >= 1
  {
    assert ts == ts - {t} + {t};
  }

  lemma FitsBefore(s: State, e: Event, bound: int)
    requires Step(s, e).Some? && Fits(Step(s, e).value, bound)
    ensures Fits(s, bound) && (e.ReadClock? ==> e.now <= bound)
  {
    var s' := Step(s, e).value;
    forall i | 0 <= i < |s.readings| ensures s.readings[i] <= bound { assert s'.readings[i] <= bound; }
    if e.ReadClock? { assert s'.readings[|s.readings|] == e.now; }
  }

  lemma {:induction false} RunInv(s: State, events: seq<Event>, bound: int)
    requires Inv(s, bound) && Run(s, events).Some? && Fits(Run(s, events).value, bound)
    ensures Inv(Run(s, events).value, bound)
  {
    hide Step, Inv, Fits;
    if |events| > 0 {
      var front, e := events[..|events| - 1], events[|events| - 1];
      var s1 := Run(s, front).value;
      FitsBefore(s1, e, bound);
      RunInv(s, front, bound);
      match e
      case ReadClock(t, now) => ClockStep(s1, t, now, bound);
      case FetchMax(t) => MaxStep(s1, t, bound);
      case FetchAdd(t) => AddStep(s1, t, bound);
    }
  }

  /**
   In every interleaving, under any clock, identities are distinct, above the
   caller's clock reading, and above all identities returned before the call began.
   */
  lemma IdentitiesAreFresh(s: State, events: seq<Event>, bound: int, i: nat)
    requires Run(Init, events) == Some(s) && Fits(s, bound) && i < |s.returned|
    ensures s.returned[i].now < s.returned[i].id <= I64_MAX
    ensures forall j | 0 <= j < |s.returned| && j != i :: s.returned[j].id != s.returned[i].id
    ensures s.returned[i].before <= i && forall j | 0 <= j < s.returned[i].before :: s.returned[j].id < s.returned[i].id
  {
    hide Run;
    var init := Init;
    var none: set<nat> := {};
    assert Active(init, none) && |none| + |init.returned| == |init.readings|;
    RunInv(init, events, bound);
    var ts: set<nat> :| Active(s, ts) && |ts| + |s.returned| == |s.readings|;
    hide Active;
    forall j | 0 <= j < |s.returned| && j != i ensures s.returned[j].id != s.returned[i].id {
      if j < i { assert s.returned[j].id < s.returned[i].id; } else { assert s.returned[i].id < s.returned[j].id; }
    }
  }

  /** The counter itself. */
  class WindowIdCounter {
    var last: int

    constructor ()
      ensures last == 0
    {
      last := 0;
    }

    /** Both atomic operations, undisturbed. */
    method AllocateId(now: int, ghost t: nat, ghost m: State) returns (id: int)
      requires m.last == last && PcOf(m, t) == Clocked(now, |m.returned|)
      modifies this
      ensures Run(m, [FetchMax(t), FetchAdd(t)]).Some?
      ensures var m' := Run(m, [FetchMax(t), FetchAdd(t)]).value;
              m'.last == last && m'.returned == m.returned + [Returned(id, now, |m.returned|)]
      ensures old(last) < I64_MAX && now < I64_MAX ==> id > now && id > old(last) && last == id
    {
      ghost var events := [FetchMax(t), FetchAdd(t)];
      assert events[..1] == [FetchMax(t)] && events[..1][..0] == [];
      assert Run(m, events[..1]) == Step(m, FetchMax(t));
      if last < now { last := now; }
      id := Increment(last);
      last := Increment(last);
    }
  }
}
