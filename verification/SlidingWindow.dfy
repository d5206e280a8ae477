/**
 * The sliding window log of the rate limiter: the times of the last admissions
 * in a circular buffer, evicted once they fall out of the window. With a limit
 * above the size of the buffer new times overwrite old ones that still count.
 */
module SlidingWindow {

  const SLOTS := 1024
  const WORD := 0x1_0000_0000_0000_0000

  // ---------- One call ----------

  // The start of the window in 64-bit unsigned arithmetic: it wraps around while
  // the clock is below the window size.
  function WindowStart(now: nat, window: nat): nat
    requires window < WORD
  {
    if now >= window then now - window else now + WORD - window
  }

  // The slot of the i-th admission.
  function Slot(i: nat): (r: nat)
    ensures r < SLOTS
  {
    i % SLOTS
  }

  lemma {:induction false} SlotSum(i: nat, k: nat)
    ensures Slot(Slot(i) + k) == Slot(i + k)
  {
  }

  // A limiter: its window, its limit, and the ring of times with its head and count.
  datatype Limiter = Limiter(window: nat, limit: int, ring: seq<nat>, head: nat, count: nat)

  predicate Shaped(l: Limiter) { l.window < WORD && |l.ring| == SLOTS && l.head < SLOTS }

  // Drop times from the head while they are before the start.
  function Evict(l: Limiter, start: nat): (r: Limiter)
    requires Shaped(l)
    ensures Shaped(r) && r.ring == l.ring && r.window == l.window && r.limit == l.limit
    decreases l.count
  {
    if l.count > 0 && l.ring[l.head] < start
    then Evict(l.(head := Slot(l.head + 1), count := l.count - 1), start)
    else l
  }

  function Refill(l: Limiter, now: nat): (r: Limiter)
    requires Shaped(l)
    ensures Shaped(r) && r.ring == l.ring && r.window == l.window && r.limit == l.limit
  {
    Evict(l, WindowStart(now, l.window))
  }

  function Remember(l: Limiter, now: nat): (r: Limiter)
    requires Shaped(l)
    ensures Shaped(r) && r.window == l.window && r.limit == l.limit
  {
    l.(ring := l.ring[Slot(l.head + l.count) := now], count := l.count + 1)
  }

  predicate Admits(l: Limiter, t1: nat, t2: nat)
    requires Shaped(l)
  {
    Refill(Refill(l, t1), t2).count < l.limit
  }

  // A request reads the clock twice: once to refill and once to decide.
  function Allow(l: Limiter, t1: nat, t2: nat): (r: Limiter)
    requires Shaped(l)
    ensures Shaped(r) && r.window == l.window && r.limit == l.limit
  {
    var l' := Refill(Refill(l, t1), t2);
    if Admits(l, t1, t2) then Remember(l', t2) else l'
  }

  // ---------- Runs ----------

  datatype Event = Refills(now: nat) | Requests(t1: nat, t2: nat)

  // The limiter, the clock, and every admission so far.
  datatype World = World(limiter: Limiter, clock: nat, admitted: seq<nat>)

  function Step(w: World, e: Event): (r: World)
    requires Shaped(w.limiter)
    ensures Shaped(r.limiter) && r.limiter.window == w.limiter.window && r.limiter.limit == w.limiter.limit
  {
    match e
    case Refills(t) => if t < w.clock then w else w.(limiter := Refill(w.limiter, t), clock := t)
    case Requests(t1, t2) =>
      if !(w.clock <= t1 <= t2) then w else
      World(Allow(w.limiter, t1, t2), t2, if Admits(w.limiter, t1, t2) then w.admitted + [t2] else w.admitted)
  }

  function Exec(w: World, es: seq<Event>): (r: World)
    requires Shaped(w.limiter)
    ensures Shaped(r.limiter) && r.limiter.window == w.limiter.window && r.limiter.limit == w.limiter.limit
  {
    if es == [] then w else Step(Exec(w, es[..|es| - 1]), es[|es| - 1])
  }

  function Init(window: nat, limit: int, clock: nat): World {
    World(Limiter(window, limit, seq(SLOTS, _ => 0), 0, 0), clock, [])
  }

  // ---------- The bound ----------

  // Any limit + 1 consecutive admissions span more than the window.
  ghost predicate Spread(admitted: seq<nat>, window: nat, limit: int) {
    forall i, j :: 0 <= i < j < |admitted| && j - i >= limit ==> admitted[j] - admitted[i] > window
  }

  ghost predicate Ordered(admitted: seq<nat>, clock: nat) {
    && (forall i :: 0 <= i < |admitted| ==> admitted[i] <= clock)
    && forall i, j :: 0 <= i < j < |admitted| ==> admitted[i] <= admitted[j]
  }

  // Admission i uses slot i modulo the size of the ring. The last `count`
  // admissions still count, and their slots hold times at least as late; the
  // others are older than the window.
  ghost predicate Counted(l: Limiter, admitted: seq<nat>, clock: nat) {
    && Shaped(l) && l.count <= |admitted| && l.head == Slot(|admitted| - l.count)
    && (forall i :: |admitted| - l.count <= i < |admitted| ==> l.ring[Slot(i)] >= admitted[i])
    && forall i :: 0 <= i < |admitted| - l.count ==> admitted[i] + l.window < clock
  }

  ghost predicate Inv(w: World) {
    && w.limiter.window <= w.clock && Ordered(w.admitted, w.clock)
    && Counted(w.limiter, w.admitted, w.clock)
    && Spread(w.admitted, w.limiter.window, w.limiter.limit)
  }

  lemma {:induction false} EvictKeepsCounted(l: Limiter, admitted: seq<nat>, clock: nat, now: nat, r: Limiter)
    requires Counted(l, admitted, clock) && clock <= now && l.window <= now && r == Evict(l, now - l.window)
    ensures Counted(r, admitted, now)
    decreases l.count
  {
    if l.count > 0 && l.ring[l.head] < now - l.window {
      var l' := l.(head := Slot(l.head + 1), count := l.count - 1);
      var e := |admitted| - l.count;
      SlotSum(e, 1);
      assert l.ring[Slot(e)] >= admitted[e];
      EvictKeepsCounted(l', admitted, now, now, r);
    }
  }

  lemma {:induction false} RefillKeepsInv(w: World, now: nat, w': World)
    requires Inv(w) && w.clock <= now && w' == w.(limiter := Refill(w.limiter, now), clock := now)
    ensures Inv(w')
  {
    EvictKeepsCounted(w.limiter, w.admitted, w.clock, now, w'.limiter);
  }

  // A new time in the ring is no earlier than what it replaces.
  lemma {:induction false} SlotHolds(ring: seq<nat>, admitted: seq<nat>, clock: nat, slot: nat, i: nat)
    requires |ring| == SLOTS && slot < SLOTS && i < |admitted| && ring[Slot(i)] >= admitted[i] && admitted[i] <= clock
    ensures ring[slot := clock][Slot(i)] >= admitted[i]
  {
  }

  lemma {:induction false} AdmitKeepsCounted(l: Limiter, admitted: seq<nat>, clock: nat, r: Limiter, all: seq<nat>)
    requires Counted(l, admitted, clock) && Ordered(admitted, clock) && r == Remember(l, clock)
    requires all == admitted + [clock]
    ensures Counted(r, all, clock)
  {
    SlotSum(|admitted| - l.count, l.count);
    AdmitSlots(l.ring, admitted, clock, |admitted| - l.count, r.ring, all);
  }

  lemma {:induction false} AdmitSlots(ring: seq<nat>, admitted: seq<nat>, clock: nat, from: nat, ring': seq<nat>,
                                      all: seq<nat>)
    requires |ring| == SLOTS && from <= |admitted| && Ordered(admitted, clock) && all == admitted + [clock]
    requires forall i :: from <= i < |admitted| ==> ring[Slot(i)] >= admitted[i]
    requires ring' == ring[Slot(|admitted|) := clock]
    ensures forall i :: from <= i < |all| ==> ring'[Slot(i)] >= all[i]
  {
    forall i | from <= i < |all| ensures ring'[Slot(i)] >= all[i] {
      if i < |admitted| {
        SlotHolds(ring, admitted, clock, Slot(|admitted|), i);
      }
    }
  }

  lemma {:induction false} AdmitKeepsSpread(l: Limiter, admitted: seq<nat>, clock: nat, all: seq<nat>)
    requires Counted(l, admitted, clock) && Spread(admitted, l.window, l.limit) && l.count < l.limit
    requires Ordered(admitted, clock) && all == admitted + [clock]
    ensures Spread(all, l.window, l.limit) && Ordered(all, clock)
  {
    forall i, j | 0 <= i < j < |all| && j - i >= l.limit ensures all[j] - all[i] > l.window {
      assert all[i] == admitted[i];
    }
  }

  lemma {:induction false} AdmitKeepsInv(w: World, w': World)
    requires Inv(w) && w.limiter.count < w.limiter.limit
    requires w' == World(Remember(w.limiter, w.clock), w.clock, w.admitted + [w.clock])
    ensures Inv(w')
  {
    AdmitKeepsCounted(w.limiter, w.admitted, w.clock, w'.limiter, w'.admitted);
    AdmitKeepsSpread(w.limiter, w.admitted, w.clock, w'.admitted);
  }

  lemma {:induction false} StepKeepsInv(w: World, e: Event, w': World)
    requires Inv(w) && w' == Step(w, e)
    ensures Inv(w')
  {
    match e
    case Refills(t) => if w.clock <= t { RefillKeepsInv(w, t, w'); }
    case Requests(t1, t2) =>
      if w.clock <= t1 <= t2 {
        var w1 := w.(limiter := Refill(w.limiter, t1), clock := t1);
        RefillKeepsInv(w, t1, w1);
        var w2 := w1.(limiter := Refill(w1.limiter, t2), clock := t2);
        RefillKeepsInv(w1, t2, w2);
        if Admits(w.limiter, t1, t2) { AdmitKeepsInv(w2, w'); }
      }
  }

  lemma {:induction false} ExecKeepsInv(w: World, es: seq<Event>, w': World)
    requires Inv(w) && w' == Exec(w, es)
    ensures Inv(w')
    decreases |es|
  {
    if es != [] {
      var mid := Exec(w, es[..|es| - 1]);
      ExecKeepsInv(w, es[..|es| - 1], mid);
      StepKeepsInv(mid, es[|es| - 1], w');
    }
  }

  // Over every run whose clock starts at or above the window size, any limit + 1
  // consecutive admissions span strictly more than the window, whatever the limit.
  lemma {:induction false} WindowBound(window: nat, limit: int, start: nat, es: seq<Event>)
    requires window < WORD && window <= start
    ensures Spread(Exec(Init(window, limit, start), es).admitted, window, limit)
  {
    ExecKeepsInv(Init(window, limit, start), es, Exec(Init(window, limit, start), es));
  }

  // ---------- The clock below the window size ----------

  // Before that the wrapped window start lies ahead of every admission, so every
  // request is let through.
  function Burst(start: nat, k: nat): seq<Event> { seq(k, _ => Requests(start, start)) }

  ghost predicate Early(w: World, window: nat, limit: int, start: nat, k: nat) {
    && Shaped(w.limiter) && w.limiter.window == window && w.limiter.limit == limit && w.clock == start
    && w.admitted == seq(k, _ => start) && forall i :: 0 <= i < SLOTS ==> w.limiter.ring[i] <= start
  }

  lemma {:induction false} EvictAll(l: Limiter, start: nat)
    requires Shaped(l) && forall i :: 0 <= i < SLOTS ==> l.ring[i] < start
    ensures Evict(l, start).count == 0
    decreases l.count
  {
    if l.count > 0 {
      EvictAll(l.(head := Slot(l.head + 1), count := l.count - 1), start);
    }
  }

  lemma {:induction false} EarlyRequest(w: World, window: nat, limit: int, start: nat, k: nat, w': World)
    requires start < window < WORD && limit > 0 && Early(w, window, limit, start, k)
    requires w' == Step(w, Requests(start, start))
    ensures Early(w', window, limit, start, k + 1)
  {
    var l1 := Refill(w.limiter, start);
    EvictAll(l1, WindowStart(start, window));
    assert w.admitted + [start] == seq(k + 1, _ => start);
  }

  lemma {:induction false} EarlyBurst(window: nat, limit: int, start: nat, k: nat, w: World)
    requires start < window < WORD && limit > 0 && w == Exec(Init(window, limit, start), Burst(start, k))
    ensures Early(w, window, limit, start, k)
    decreases k
  {
    if k > 0 {
      var mid := Exec(Init(window, limit, start), Burst(start, k - 1));
      EarlyBurst(window, limit, start, k - 1, mid);
      assert Burst(start, k)[..k - 1] == Burst(start, k - 1);
      EarlyRequest(mid, window, limit, start, k - 1, w);
    }
  }

  lemma {:induction false} NothingAdmitted(window: nat, limit: int, start: nat, es: seq<Event>)
    requires window < WORD && limit <= 0
    ensures Exec(Init(window, limit, start), es).admitted == []
  {
    if es != [] {
      NothingAdmitted(window, limit, start, es[..|es| - 1]);
    }
  }

  lemma {:induction false} EarlyBreaks(window: nat, limit: int, start: nat)
    requires start < window < WORD && limit > 0
    ensures !Spread(Exec(Init(window, limit, start), Burst(start, limit + 1)).admitted, window, limit)
  {
    var w := Exec(Init(window, limit, start), Burst(start, limit + 1));
    EarlyBurst(window, limit, start, limit + 1, w);
    assert w.admitted[limit] - w.admitted[0] == 0;
  }

  // The bound holds on every run exactly when the clock starts at or above the
  // window size, or nothing may be admitted at all.
  lemma {:induction false} BoundExactly(window: nat, limit: int, start: nat)
    requires window < WORD
    ensures (forall es :: Spread(Exec(Init(window, limit, start), es).admitted, window, limit)) <==>
            window <= start || limit <= 0
  {
    if window <= start || limit <= 0 {
      forall es ensures Spread(Exec(Init(window, limit, start), es).admitted, window, limit) {
        if window <= start {
          WindowBound(window, limit, start, es);
        } else {
          NothingAdmitted(window, limit, start, es);
        }
      }
    } else {
      EarlyBreaks(window, limit, start);
    }
  }

  // ---------- When a request must be admitted ----------

  predicate Recent(t: nat, window: nat, now: nat) { t + window >= now }

  // How many admissions are still in the window.
  function RecentCount(admitted: seq<nat>, window: nat, now: nat): nat {
    if admitted == [] then 0 else
    RecentCount(admitted[..|admitted| - 1], window, now) +
    if Recent(admitted[|admitted| - 1], window, now) then 1 else 0
  }

  lemma {:induction false} RecentFrom(admitted: seq<nat>, window: nat, now: nat, m: nat)
    requires m <= |admitted|
    requires forall i :: 0 <= i < |admitted| ==> (Recent(admitted[i], window, now) <==> m <= i)
    ensures RecentCount(admitted, window, now) == |admitted| - m
  {
    if admitted != [] {
      var n, rest := |admitted| - 1, admitted[..|admitted| - 1];
      assert Recent(admitted[n], window, now) <==> m <= n;
      if m <= n {
        RecentFrom(rest, window, now, m);
      } else {
        RecentFrom(rest, window, now, n);
      }
    }
  }

  // The slots of the counted admissions hold exactly their times.
  ghost predicate Tight(l: Limiter, admitted: seq<nat>) {
    && Shaped(l) && l.count <= SLOTS && l.count <= |admitted| && l.head == Slot(|admitted| - l.count)
    && forall i :: |admitted| - l.count <= i < |admitted| ==> l.ring[Slot(i)] == admitted[i]
  }

  lemma {:induction false} EvictTight(l: Limiter, admitted: seq<nat>, start: nat, r: Limiter)
    requires Tight(l, admitted) && r == Evict(l, start)
    ensures Tight(r, admitted) && (r.count > 0 ==> r.ring[r.head] >= start)
    decreases l.count
  {
    if l.count > 0 && l.ring[l.head] < start {
      var l' := l.(head := Slot(l.head + 1), count := l.count - 1);
      SlotSum(|admitted| - l.count, 1);
      EvictTight(l', admitted, start, r);
    }
  }

  lemma {:induction false} SlotsApart(i: nat, n: nat)
    requires i < n < i + SLOTS
    ensures Slot(i) != Slot(n)
  {
  }

  lemma {:induction false} RememberTight(l: Limiter, admitted: seq<nat>, now: nat, r: Limiter, all: seq<nat>)
    requires Tight(l, admitted) && l.count < SLOTS && r == Remember(l, now) && all == admitted + [now]
    ensures Tight(r, all)
  {
    var n := |admitted|;
    SlotSum(n - l.count, l.count);
    forall i | |all| - r.count <= i < |all| ensures r.ring[Slot(i)] == all[i] {
      if i < n {
        SlotsApart(i, n);
      }
    }
  }

  lemma {:induction false} StepTight(w: World, e: Event, w': World)
    requires Tight(w.limiter, w.admitted) && w.limiter.limit <= SLOTS && w' == Step(w, e)
    ensures Tight(w'.limiter, w'.admitted)
  {
    match e
    case Refills(t) =>
      EvictTight(w.limiter, w.admitted, WindowStart(t, w.limiter.window), Refill(w.limiter, t));
    case Requests(t1, t2) =>
      var l1, l2 := Refill(w.limiter, t1), Refill(Refill(w.limiter, t1), t2);
      EvictTight(w.limiter, w.admitted, WindowStart(t1, w.limiter.window), l1);
      EvictTight(l1, w.admitted, WindowStart(t2, w.limiter.window), l2);
      if l2.count < w.limiter.limit {
        RememberTight(l2, w.admitted, t2, Remember(l2, t2), w.admitted + [t2]);
      }
  }

  lemma {:induction false} ExecTight(w: World, es: seq<Event>, w': World)
    requires Tight(w.limiter, w.admitted) && w.limiter.limit <= SLOTS && w' == Exec(w, es)
    ensures Tight(w'.limiter, w'.admitted)
    decreases |es|
  {
    if es != [] {
      var mid := Exec(w, es[..|es| - 1]);
      ExecTight(w, es[..|es| - 1], mid);
      StepTight(mid, es[|es| - 1], w');
    }
  }

  // After a refill exactly the admissions in the window are counted.
  lemma {:induction false} RefillCounts(w: World, now: nat, r: Limiter)
    requires Inv(w) && Tight(w.limiter, w.admitted) && w.clock <= now && r == Refill(w.limiter, now)
    ensures r.count == RecentCount(w.admitted, r.window, now) && Tight(r, w.admitted)
  {
    var n, w' := |w.admitted|, w.(limiter := r, clock := now);
    RefillKeepsInv(w, now, w');
    EvictTight(w.limiter, w.admitted, WindowStart(now, w.limiter.window), r);
    forall i | 0 <= i < n ensures Recent(w.admitted[i], r.window, now) <==> n - r.count <= i {
      if n - r.count <= i {
        assert r.ring[Slot(n - r.count)] == w.admitted[n - r.count];
      }
    }
    RecentFrom(w.admitted, r.window, now, n - r.count);
  }

  // A limit within the buffer admits a request exactly when fewer than the limit were
  // admitted in the window that ends with it.
  lemma {:induction false} AdmitsExactly(window: nat, limit: int, start: nat, es: seq<Event>, t1: nat, t2: nat)
    requires window < WORD && window <= start && limit <= SLOTS
    requires Exec(Init(window, limit, start), es).clock <= t1 <= t2
    ensures var w := Exec(Init(window, limit, start), es);
            Admits(w.limiter, t1, t2) <==> RecentCount(w.admitted, window, t2) < limit
  {
    var w := Exec(Init(window, limit, start), es);
    ExecKeepsInv(Init(window, limit, start), es, w);
    ExecTight(Init(window, limit, start), es, w);
    RefillCounts(w, t1, Refill(w.limiter, t1));
    RefillKeepsInv(w, t1, w.(limiter := Refill(w.limiter, t1), clock := t1));
    RefillCounts(w.(limiter := Refill(w.limiter, t1), clock := t1), t2, Refill(Refill(w.limiter, t1), t2));
  }

  // ---------- Limits beyond the buffer ----------

  // The buffer is filled at one time, and then j more are admitted when those are about
  // to leave the window.
  function Jam(window: nat, start: nat, j: nat): seq<Event> {
    if j == 0 then seq(SLOTS, _ => Requests(start, start))
    else Jam(window, start, j - 1) + [Requests(start + window, start + window)]
  }

  ghost predicate Filling(w: World, window: nat, limit: int, start: nat, k: nat) {
    && Shaped(w.limiter) && w.limiter.window == window && w.limiter.limit == limit && w.clock == start
    && w.limiter.head == 0 && w.limiter.count == k <= SLOTS
    && (forall i :: 0 <= i < k ==> w.limiter.ring[i] == start)
    && |w.admitted| == k && forall i :: 0 <= i < k ==> w.admitted[i] == start
  }

  ghost predicate Jammed(w: World, window: nat, limit: int, start: nat, j: nat) {
    && Shaped(w.limiter) && w.limiter.window == window && w.limiter.limit == limit
    && w.clock == (if j == 0 then start else start + window)
    && w.limiter.head == 0 && w.limiter.count == SLOTS + j
    && w.limiter.ring[0] == w.clock
    && |w.admitted| == SLOTS + j && (forall i :: 0 <= i < SLOTS ==> w.admitted[i] == start)
    && forall i :: SLOTS <= i < SLOTS + j ==> w.admitted[i] == start + window
  }

  // Nothing is dropped while the head is in the window.
  lemma {:induction false} HeadStays(l: Limiter, now: nat)
    requires Shaped(l) && l.window <= now && l.count > 0 && l.ring[l.head] + l.window >= now
    ensures Refill(l, now) == l
  {
  }

  lemma {:induction false} FillingNext(w: World, window: nat, limit: int, start: nat, k: nat, w': World)
    requires Filling(w, window, limit, start, k) && window <= start && k < SLOTS < limit
    requires w' == Step(w, Requests(start, start))
    ensures Filling(w', window, limit, start, k + 1)
  {
    if k > 0 {
      HeadStays(w.limiter, start);
    }
  }

  lemma {:induction false} FillingRun(window: nat, limit: int, start: nat, k: nat, w: World)
    requires window < WORD && window <= start && k <= SLOTS < limit
    requires w == Exec(Init(window, limit, start), seq(k, _ => Requests(start, start)))
    ensures Filling(w, window, limit, start, k)
  {
    if k > 0 {
      var es := seq(k, _ => Requests(start, start));
      assert es[..k - 1] == seq(k - 1, _ => Requests(start, start));
      var mid := Exec(Init(window, limit, start), es[..k - 1]);
      FillingRun(window, limit, start, k - 1, mid);
      FillingNext(mid, window, limit, start, k - 1, w);
    }
  }

  lemma {:induction false} JamNext(w: World, window: nat, limit: int, start: nat, j: nat, w': World)
    requires Jammed(w, window, limit, start, j) && window <= start && SLOTS + j < limit
    requires w' == Step(w, Requests(start + window, start + window))
    ensures Jammed(w', window, limit, start, j + 1)
  {
    HeadStays(w.limiter, start + window);
    assert j == 0 ==> Slot(SLOTS) == 0;
  }

  lemma {:induction false} JamRun(window: nat, limit: int, start: nat, j: nat, w: World)
    requires window < WORD && window <= start && SLOTS < limit && SLOTS + j <= limit
    requires w == Exec(Init(window, limit, start), Jam(window, start, j))
    ensures Jammed(w, window, limit, start, j)
  {
    if j == 0 {
      FillingRun(window, limit, start, SLOTS, w);
    } else {
      var es := Jam(window, start, j);
      assert es[..|es| - 1] == Jam(window, start, j - 1);
      var mid := Exec(Init(window, limit, start), Jam(window, start, j - 1));
      JamRun(window, limit, start, j - 1, mid);
      JamNext(mid, window, limit, start, j - 1, w);
    }
  }

  // A limit beyond the buffer refuses a request although all but the last few
  // admissions have left the window: the head's time has been overwritten.
  lemma {:induction false} JammedRefuses(window: nat, limit: int, start: nat, now: nat, w: World)
    requires 0 < window < WORD && window <= start && SLOTS < limit && now == start + window + 1
    requires w == Exec(Init(window, limit, start), Jam(window, start, limit - SLOTS))
    ensures w.clock <= now && !Admits(w.limiter, now, now) && RecentCount(w.admitted, window, now) < limit
  {
    JamRun(window, limit, start, limit - SLOTS, w);
    JamIsFull(w, window, limit, start, now);
  }

  lemma {:induction false} JamIsFull(w: World, window: nat, limit: int, start: nat, now: nat)
    requires 0 < window <= start && SLOTS < limit && now == start + window + 1
    requires Jammed(w, window, limit, start, limit - SLOTS)
    ensures w.clock <= now && !Admits(w.limiter, now, now) && RecentCount(w.admitted, window, now) < limit
  {
    HeadStays(w.limiter, now);
    RecentJam(w.admitted, window, start, now);
  }

  lemma {:induction false} RecentJam(admitted: seq<nat>, window: nat, start: nat, now: nat)
    requires 0 < window <= start && now == start + window + 1 && SLOTS <= |admitted|
    requires forall i :: 0 <= i < |admitted| ==> admitted[i] == if i < SLOTS then start else start + window
    ensures RecentCount(admitted, window, now) == |admitted| - SLOTS
  {
    RecentFrom(admitted, window, now, SLOTS);
  }

  ghost predicate Exact(window: nat, limit: int, start: nat, es: seq<Event>, t1: nat, t2: nat)
    requires window < WORD
  {
    var w := Exec(Init(window, limit, start), es);
    w.clock <= t1 <= t2 ==> (Admits(w.limiter, t1, t2) <==> RecentCount(w.admitted, window, t2) < limit)
  }

  // Requests are admitted exactly by the count of the window, on every run, if and only
  // if the limit is within the buffer.
  lemma {:induction false} ExactWithinBuffer(window: nat, limit: int, start: nat)
    requires 0 < window < WORD && window <= start
    ensures (forall es, t1, t2 :: Exact(window, limit, start, es, t1, t2)) <==> limit <= SLOTS
  {
    if limit <= SLOTS {
      forall es, t1: nat, t2: nat ensures Exact(window, limit, start, es, t1, t2) {
        if Exec(Init(window, limit, start), es).clock <= t1 <= t2 {
          AdmitsExactly(window, limit, start, es, t1, t2);
        }
      }
    } else {
      var es, now := Jam(window, start, limit - SLOTS), start + window + 1;
      JammedRefuses(window, limit, start, now, Exec(Init(window, limit, start), es));
      assert !Exact(window, limit, start, es, now, now);
    }
  }

  // ---------- The limiter ----------

  class SlidingWindowLog {
    const timestamps: array<nat>
    const window: nat
    const limit: int
    var count: nat
    var head: nat
    var tail: nat

    ghost predicate Valid()
      reads this
    {
      timestamps.Length == SLOTS && window < WORD && head < SLOTS && tail == Slot(head + count)
    }

    ghost function Value(): Limiter
      reads this, timestamps
    {
      Limiter(window, limit, timestamps[..], head, count)
    }

    constructor (windowMs: nat, maxRequests: int)
      requires windowMs < WORD
      ensures Valid() && fresh(timestamps)
      ensures Value() == Init(if windowMs > 0 then windowMs else 1000, maxRequests, 0).limiter
    {
      timestamps := new nat[SLOTS](_ => 0);
      window, limit := if windowMs > 0 then windowMs else 1000, maxRequests;
      count, head, tail := 0, 0, 0;
      new;
      assert timestamps[..] == seq(SLOTS, _ => 0);
    }

    method DropHead()
      requires Valid() && count > 0
      modifies `head, `count
      ensures Valid() && head == Slot(old(head) + 1) && count == old(count) - 1
    {
      SlotSum(head + 1, count - 1);
      head := (head + 1) % SLOTS;
      count := count - 1;
    }

    method EvictOld(now: nat)
      requires Valid()
      modifies `head, `count
      ensures Valid() && Value() == Refill(old(Value()), now)
    {
      var start := WindowStart(now, window);
      ghost var v := Value();
      while count > 0 && timestamps[head] < start
        invariant Valid() && v == Value() && Evict(v, start) == Evict(old(Value()), start)
        decreases count
      {
        DropHead();
        v := v.(head := Slot(v.head + 1), count := v.count - 1);
      }
    }

    method RememberTime(now: nat)
      requires Valid()
      modifies `tail, `count, timestamps
      ensures Valid() && Value() == Remember(old(Value()), now)
    {
      SlotSum(head + count, 1);
      timestamps[tail] := now;
      tail := (tail + 1) % SLOTS;
      count := count + 1;
    }

    method AllowRequest(t1: nat, t2: nat) returns (ok: bool)
      requires Valid()
      modifies this, timestamps
      ensures Valid() && ok == Admits(old(Value()), t1, t2) && Value() == Allow(old(Value()), t1, t2)
    {
      EvictOld(t1);
      EvictOld(t2);
      ok := count < limit;
      if ok {
        RememberTime(t2);
      }
    }
  }
}
