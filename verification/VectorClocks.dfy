/**
 * Vector clocks: every event of a run is stamped by incrementing the local
 * clock, after merging the stamp of the message when the event receives one.
 * Comparing two stamps decides how the events are ordered causally.
 */
module VectorClocks {

  const MAX_NODES := 8

  type Stamp = seq<nat>

  datatype Order = Before | After | Concurrent | Equal

  // ---------- The operations on values ----------

  // Counters past the end of a clock read as zero.
  function At(v: Stamp, i: nat): nat { if i < |v| then v[i] else 0 }

  function Zero(n: nat): Stamp { seq(n, _ => 0) }

  function Tick(v: Stamp, p: int): Stamp { if 0 <= p < |v| then v[p := v[p] + 1] else v }

  function Max(a: nat, b: nat): nat { if a > b then a else b }

  function Join(a: Stamp, b: Stamp): Stamp { seq(Max(|a|, |b|), i requires 0 <= i => Max(At(a, i), At(b, i))) }

  ghost predicate Leq(a: Stamp, b: Stamp) { forall i: nat :: At(a, i) <= At(b, i) }

  ghost function Compare(a: Stamp, b: Stamp): Order {
    if Leq(a, b) && Leq(b, a) then Equal
    else if Leq(a, b) then Before
    else if Leq(b, a) then After
    else Concurrent
  }

  // ---------- Runs ----------

  // An event of a process; a receive event names the event that sent the message.
  datatype Event = Internal(process: nat) | Sends(process: nat) | Receives(process: nat, source: nat)

  // A message is received after it was sent, by anybody, any number of times or
  // never, and in any order.
  ghost predicate Run(es: seq<Event>, n: nat) {
    && (forall i :: 0 <= i < |es| ==> es[i].process < n)
    && forall i :: 0 <= i < |es| && es[i].Receives? ==> es[i].source < i && es[es[i].source].Sends?
  }

  // The last event of process p before index i, or i itself if there is none.
  function Previous(es: seq<Event>, p: nat, i: nat): (r: nat)
    requires i <= |es|
    ensures r <= i && (r < i ==> es[r].process == p)
    ensures forall k :: 0 <= k < i && es[k].process == p ==> r < i && k <= r
  {
    PreviousFrom(es, p, i, i)
  }

  function PreviousFrom(es: seq<Event>, p: nat, i: nat, k: nat): (r: nat)
    requires k <= i <= |es| && forall j :: k <= j < i ==> es[j].process != p
    ensures r <= i && (r < i ==> es[r].process == p)
    ensures forall j :: 0 <= j < i && es[j].process == p ==> r < i && j <= r
  {
    if k == 0 then i else if es[k - 1].process == p then k - 1 else PreviousFrom(es, p, i, k - 1)
  }

  // The clock of a process just before event i.
  function LocalClock(es: seq<Event>, n: nat, i: nat): Stamp
    requires i < |es| && Run(es, n)
    decreases i, 0
  {
    var q := Previous(es, es[i].process, i);
    if q < i then Clock(es, n, q) else Zero(n)
  }

  // The stamp of event i: merge on receipt, then increment.
  function Clock(es: seq<Event>, n: nat, i: nat): Stamp
    requires i < |es| && Run(es, n)
    decreases i, 1
  {
    var v := LocalClock(es, n, i);
    Tick(if es[i].Receives? then Join(v, Clock(es, n, es[i].source)) else v, es[i].process)
  }

  // ---------- Causality ----------

  // One step of causality: the next events of the same process, or the receipt of a message.
  predicate Edge(es: seq<Event>, i: nat, j: nat) {
    i < j < |es| && (es[i].process == es[j].process || (es[j].Receives? && es[j].source == i))
  }

  // Happens-before is the transitive closure of these steps.
  ghost predicate HappensBefore(es: seq<Event>, i: nat, j: nat)
    decreases j
  {
    Edge(es, i, j) || exists k :: i < k < j && HappensBefore(es, i, k) && Edge(es, k, j)
  }

  ghost predicate SameOrBefore(es: seq<Event>, i: nat, j: nat) { i == j || HappensBefore(es, i, j) }

  lemma {:induction false} BeforeIsEarlier(es: seq<Event>, i: nat, j: nat)
    requires HappensBefore(es, i, j)
    ensures i < j < |es|
  {
  }

  lemma {:induction false} BeforeTransitive(es: seq<Event>, i: nat, j: nat, k: nat)
    requires HappensBefore(es, i, j) && HappensBefore(es, j, k)
    ensures HappensBefore(es, i, k)
    decreases k
  {
    BeforeIsEarlier(es, i, j);
    BeforeIsEarlier(es, j, k);
    if !Edge(es, j, k) {
      var m :| j < m < k && HappensBefore(es, j, m) && Edge(es, m, k);
      BeforeTransitive(es, i, j, m);
    }
  }

  // What precedes event j: whatever precedes the previous event of its process
  // or the event whose message it receives, and these two.
  lemma {:induction false} Predecessors(es: seq<Event>, i: nat, j: nat)
    requires j < |es| && (es[j].Receives? ==> es[j].source < j)
    ensures HappensBefore(es, i, j) <==>
            || (Previous(es, es[j].process, j) < j && SameOrBefore(es, i, Previous(es, es[j].process, j)))
            || (es[j].Receives? && SameOrBefore(es, i, es[j].source))
  {
    var q := Previous(es, es[j].process, j);
    if HappensBefore(es, i, j) {
      var k := if Edge(es, i, j) then i else var k :| i < k < j && HappensBefore(es, i, k) && Edge(es, k, j); k;
      assert SameOrBefore(es, i, k) && Edge(es, k, j);
      if es[k].process == es[j].process && k < q {
        assert Edge(es, k, q);
        if i != k { assert HappensBefore(es, i, q); }
      }
    }
    if q < j && SameOrBefore(es, i, q) {
      assert Edge(es, q, j);
      if i != q { BeforeIsEarlier(es, i, q); }
    }
    if es[j].Receives? && SameOrBefore(es, i, es[j].source) {
      assert Edge(es, es[j].source, j);
      if i != es[j].source { BeforeIsEarlier(es, i, es[j].source); }
    }
  }

  // ---------- What a counter means ----------

  // How many events of process p are among the first i.
  ghost function Events(es: seq<Event>, p: nat, i: nat): nat
    requires i <= |es|
  {
    if i == 0 then 0 else Events(es, p, i - 1) + if es[i - 1].process == p then 1 else 0
  }

  lemma {:induction false} EventsMonotone(es: seq<Event>, p: nat, i: nat, j: nat)
    requires i <= j <= |es|
    ensures Events(es, p, i) <= Events(es, p, j)
    ensures i < j && es[j - 1].process == p ==> Events(es, p, i) < Events(es, p, j)
  {
    if i < j {
      EventsMonotone(es, p, i, j - 1);
    }
  }

  lemma {:induction false} EventsGap(es: seq<Event>, p: nat, i: nat, j: nat)
    requires i <= j <= |es| && forall k :: i <= k < j ==> es[k].process != p
    ensures Events(es, p, i) == Events(es, p, j)
  {
    if i < j {
      EventsGap(es, p, i, j - 1);
    }
  }

  // The number of an event within its process, counted from one.
  ghost function Number(es: seq<Event>, i: nat): nat
    requires i < |es|
  {
    Events(es, es[i].process, i + 1)
  }

  lemma {:induction false} TickAt(v: Stamp, p: nat, r: nat)
    requires p < |v|
    ensures At(Tick(v, p), r) == At(v, r) + if r == p then 1 else 0
  {
  }

  lemma {:induction false} JoinAt(a: Stamp, b: Stamp, r: nat)
    ensures At(Join(a, b), r) == Max(At(a, r), At(b, r))
  {
  }

  // The counter of process r in the stamp of event i.
  lemma {:induction false} ClockAt(es: seq<Event>, n: nat, i: nat, r: nat)
    requires i < |es| && Run(es, n) && |LocalClock(es, n, i)| == n
    ensures At(Clock(es, n, i), r) == (if r == es[i].process then 1 else 0) +
                                      Max(At(LocalClock(es, n, i), r),
                                          if es[i].Receives? then At(Clock(es, n, es[i].source), r) else 0)
  {
    var v := LocalClock(es, n, i);
    if es[i].Receives? {
      var s := Clock(es, n, es[i].source);
      JoinAt(v, s, r);
      TickAt(Join(v, s), es[i].process, r);
    } else {
      TickAt(v, es[i].process, r);
    }
  }

  lemma {:induction false} LocalClockSize(es: seq<Event>, n: nat, i: nat)
    requires i < |es| && Run(es, n)
    ensures |LocalClock(es, n, i)| == n
  {
    var q := Previous(es, es[i].process, i);
    if q < i { CountersBounded(es, n, q); }
  }

  // No counter runs ahead of its process, and the own counter is the event's number.
  ghost predicate Bounded(es: seq<Event>, n: nat, i: nat)
    requires i < |es| && Run(es, n)
  {
    && |Clock(es, n, i)| == n && At(Clock(es, n, i), es[i].process) == Number(es, i)
    && forall p: nat :: At(Clock(es, n, i), p) <= Events(es, p, i + 1)
  }

  // The local clock has counted the events of the own process before i.
  lemma {:induction false} LocalBound(es: seq<Event>, n: nat, i: nat)
    requires i < |es| && Run(es, n)
    requires var q := Previous(es, es[i].process, i); q < i ==> Bounded(es, n, q)
    ensures |LocalClock(es, n, i)| == n && At(LocalClock(es, n, i), es[i].process) == Events(es, es[i].process, i)
    ensures forall r: nat :: At(LocalClock(es, n, i), r) <= Events(es, r, i)
  {
    var p := es[i].process;
    var q := Previous(es, p, i);
    EventsGap(es, p, if q < i then q + 1 else 0, i);
    forall r: nat ensures At(LocalClock(es, n, i), r) <= Events(es, r, i) {
      if q < i { EventsMonotone(es, r, q + 1, i); }
    }
  }

  lemma {:induction false} SourceBound(es: seq<Event>, n: nat, i: nat)
    requires i < |es| && Run(es, n) && es[i].Receives? && Bounded(es, n, es[i].source)
    ensures forall r: nat :: At(Clock(es, n, es[i].source), r) <= Events(es, r, i)
  {
    forall r: nat ensures At(Clock(es, n, es[i].source), r) <= Events(es, r, i) {
      EventsMonotone(es, r, es[i].source + 1, i);
    }
  }

  lemma {:induction false} CountersBounded(es: seq<Event>, n: nat, i: nat)
    requires i < |es| && Run(es, n)
    ensures Bounded(es, n, i)
    decreases i
  {
    var q := Previous(es, es[i].process, i);
    if q < i { CountersBounded(es, n, q); }
    LocalBound(es, n, i);
    if es[i].Receives? {
      CountersBounded(es, n, es[i].source);
      SourceBound(es, n, i);
    }
    forall r: nat
      ensures At(Clock(es, n, i), r) <= Events(es, r, i + 1)
      ensures r == es[i].process ==> At(Clock(es, n, i), r) == Number(es, i)
    {
      ClockAt(es, n, i, r);
    }
  }

  // The counter of a process tells exactly which of its events precede event j:
  // the first ones, up to that number.
  lemma {:induction false} CounterMeaning(es: seq<Event>, n: nat, i: nat, j: nat)
    requires i < |es| && j < |es| && Run(es, n)
    ensures SameOrBefore(es, i, j) <==> Number(es, i) <= At(Clock(es, n, j), es[i].process)
    decreases j
  {
    if i > j {
      LaterEvent(es, n, i, j);
    } else if es[i].process == es[j].process {
      OwnEvent(es, n, i, j);
    } else if i < j {
      var q := Previous(es, es[j].process, j);
      OtherProcess(es, n, i, j);
      if q < j { CounterMeaning(es, n, i, q); }
      if es[j].Receives? { CounterMeaning(es, n, i, es[j].source); }
    }
  }

  // A later event has a number no earlier stamp reached.
  lemma {:induction false} LaterEvent(es: seq<Event>, n: nat, i: nat, j: nat)
    requires j < i < |es| && Run(es, n)
    ensures !SameOrBefore(es, i, j) && Number(es, i) > At(Clock(es, n, j), es[i].process)
  {
    CountersBounded(es, n, j);
    EventsMonotone(es, es[i].process, j + 1, i + 1);
    if HappensBefore(es, i, j) { BeforeIsEarlier(es, i, j); }
  }

  // Events of one process are in order.
  lemma {:induction false} OwnEvent(es: seq<Event>, n: nat, i: nat, j: nat)
    requires i <= j < |es| && Run(es, n) && es[i].process == es[j].process
    ensures SameOrBefore(es, i, j) && Number(es, i) <= At(Clock(es, n, j), es[i].process)
  {
    CountersBounded(es, n, j);
    EventsMonotone(es, es[i].process, i + 1, j + 1);
    assert i == j || Edge(es, i, j);
  }

  // An event of another process counts when the local clock or the message counts it.
  lemma {:induction false} OtherProcess(es: seq<Event>, n: nat, i: nat, j: nat)
    requires i < j < |es| && Run(es, n) && es[i].process != es[j].process
    ensures var q, p, k := Previous(es, es[j].process, j), es[i].process, Number(es, i);
            && (SameOrBefore(es, i, j) <==>
                (q < j && SameOrBefore(es, i, q)) || (es[j].Receives? && SameOrBefore(es, i, es[j].source)))
            && (k <= At(Clock(es, n, j), p) <==>
                (q < j && k <= At(Clock(es, n, q), p)) || (es[j].Receives? && k <= At(Clock(es, n, es[j].source), p)))
  {
    Predecessors(es, i, j);
    LocalClockSize(es, n, j);
    ClockAt(es, n, j, es[i].process);
    EventsMonotone(es, es[i].process, 0, i + 1);
  }

  // ---------- Comparison decides causality ----------

  lemma {:induction false} ClockOrder(es: seq<Event>, n: nat, i: nat, j: nat)
    requires i < |es| && j < |es| && Run(es, n)
    ensures Leq(Clock(es, n, i), Clock(es, n, j)) <==> SameOrBefore(es, i, j)
  {
    CountersBounded(es, n, i);
    CounterMeaning(es, n, i, j);
    if SameOrBefore(es, i, j) && i != j {
      ClockGrows(es, n, i, j);
    }
  }

  lemma {:induction false} ClockGrows(es: seq<Event>, n: nat, i: nat, j: nat)
    requires j < |es| && Run(es, n) && HappensBefore(es, i, j)
    ensures i < j && Leq(Clock(es, n, i), Clock(es, n, j))
    decreases j
  {
    BeforeIsEarlier(es, i, j);
    Predecessors(es, i, j);
    CountersBounded(es, n, j);
    var q := Previous(es, es[j].process, j);
    if q < j && SameOrBefore(es, i, q) {
      CountersBounded(es, n, q);
      if i != q { ClockGrows(es, n, i, q); }
      assert Leq(Clock(es, n, q), Clock(es, n, j)) by { StepGrows(es, n, j); }
    } else {
      var s := es[j].source;
      if i != s { ClockGrows(es, n, i, s); }
      assert Leq(Clock(es, n, s), Clock(es, n, j)) by { StepGrows(es, n, j); }
    }
  }

  // An event's stamp dominates the local clock and the stamp it received.
  lemma {:induction false} StepGrows(es: seq<Event>, n: nat, j: nat)
    requires j < |es| && Run(es, n)
    ensures Leq(LocalClock(es, n, j), Clock(es, n, j))
    ensures es[j].Receives? ==> Leq(Clock(es, n, es[j].source), Clock(es, n, j))
  {
    LocalClockSize(es, n, j);
    forall r: nat
      ensures At(LocalClock(es, n, j), r) <= At(Clock(es, n, j), r)
      ensures es[j].Receives? ==> At(Clock(es, n, es[j].source), r) <= At(Clock(es, n, j), r)
    {
      ClockAt(es, n, j, r);
    }
  }

  // Vector clocks characterise causality, in every run and for every two events.
  lemma {:induction false} CompareDecidesCausality(es: seq<Event>, n: nat, i: nat, j: nat)
    requires i < |es| && j < |es| && Run(es, n)
    ensures Compare(Clock(es, n, i), Clock(es, n, j)) == Before <==> HappensBefore(es, i, j)
    ensures Compare(Clock(es, n, i), Clock(es, n, j)) == After <==> HappensBefore(es, j, i)
    ensures Compare(Clock(es, n, i), Clock(es, n, j)) == Equal <==> i == j
    ensures Compare(Clock(es, n, i), Clock(es, n, j)) == Concurrent <==>
            i != j && !HappensBefore(es, i, j) && !HappensBefore(es, j, i)
  {
    ClockOrder(es, n, i, j);
    ClockOrder(es, n, j, i);
    if HappensBefore(es, i, j) { BeforeIsEarlier(es, i, j); }
    if HappensBefore(es, j, i) { BeforeIsEarlier(es, j, i); }
  }

  // ---------- The clock ----------

  class VectorClock {
    const counters: array<nat>
    var nodeCount: nat

    ghost predicate Valid()
      reads this, counters
    {
      && counters.Length == MAX_NODES && nodeCount <= MAX_NODES
      && forall i :: nodeCount <= i < MAX_NODES ==> counters[i] == 0
    }

    ghost function Value(): Stamp
      requires Valid()
      reads this, counters
    {
      counters[..nodeCount]
    }

    constructor (n: nat)
      requires n <= MAX_NODES
      ensures Valid() && fresh(counters) && Value() == Zero(n)
    {
      counters := new nat[MAX_NODES];
      nodeCount := n;
      new;
      var i := 0;
      while i < MAX_NODES
        modifies counters
        invariant 0 <= i <= MAX_NODES && nodeCount == n
        invariant forall k :: 0 <= k < i ==> counters[k] == 0
      {
        counters[i] := 0;
        i := i + 1;
      }
    }

    method Increment(p: int) returns (r: nat)
      requires Valid()
      modifies counters
      ensures Valid() && Value() == Tick(old(Value()), p)
      ensures r == if 0 <= p < nodeCount then Value()[p] else 0
    {
      if p < 0 || p >= nodeCount {
        return 0;
      }
      counters[p] := counters[p] + 1;
      return counters[p];
    }

    method Merge(other: VectorClock)
      requires Valid() && other.Valid() && (other == this || other.counters != counters)
      modifies this`nodeCount, counters
      ensures Valid() && Value() == Join(old(Value()), old(other.Value()))
    {
      ghost var a, b := Value(), other.Value();
      var n := if nodeCount > other.nodeCount then nodeCount else other.nodeCount;
      nodeCount := n;
      var i := 0;
      while i < n
        invariant 0 <= i <= n && Valid() && nodeCount == n == Max(|a|, |b|) && b == other.Value()
        invariant forall k :: 0 <= k < i ==> counters[k] == Max(At(a, k), At(b, k))
        invariant forall k :: i <= k < n ==> counters[k] == At(a, k)
      {
        if other.counters[i] > counters[i] {
          counters[i] := other.counters[i];
        }
        i := i + 1;
      }
    }

    method CompareTo(other: VectorClock) returns (r: Order)
      requires Valid() && other.Valid()
      ensures r == Compare(Value(), other.Value())
    {
      ghost var va, vb := Value(), other.Value();
      var n := if nodeCount > other.nodeCount then nodeCount else other.nodeCount;
      var aLeqB, bLeqA := true, true;
      var i := 0;
      while i < n
        invariant 0 <= i <= n
        invariant aLeqB <==> forall k :: 0 <= k < i ==> At(va, k) <= At(vb, k)
        invariant bLeqA <==> forall k :: 0 <= k < i ==> At(vb, k) <= At(va, k)
      {
        var a := if i < nodeCount then counters[i] else 0;
        var b := if i < other.nodeCount then other.counters[i] else 0;
        assert a == At(va, i) && b == At(vb, i);
        if a > b { aLeqB := false; }
        if b > a { bLeqA := false; }
        i := i + 1;
      }
      assert aLeqB <==> Leq(va, vb);
      assert bLeqA <==> Leq(vb, va);
      r := if aLeqB && bLeqA then Equal else if aLeqB then Before else if bLeqA then After else Concurrent;
    }
  }
}
