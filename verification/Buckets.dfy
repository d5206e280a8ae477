/**
 * The token bucket and the leaky bucket of the rate limiter, over real numbers.
 */
module Buckets {

  // The burst a limiter works with: a burst that is not positive falls back to the rate, then to ten.
  function Burst(rate: real, burst: real): (r: real)
    ensures r > 0.0
  {
    if burst > 0.0 then burst else if rate > 0.0 then rate else 10.0
  }

  // A bucket's level (tokens left, or water inside), capacity, rate and last update.
  datatype Bucket = Bucket(level: real, capacity: real, rate: real, last: real)

  datatype Reply = Reply(bucket: Bucket, ok: bool)

  // ---------- The token bucket ----------

  function FullBucket(rate: real, burst: real, now: real): Bucket {
    Bucket(Burst(rate, burst), Burst(rate, burst), rate, now)
  }

  // Rate times elapsed time.
  function Amount(elapsed: real, rate: real): real { elapsed * rate }

  // What flows since the last update.
  function Flow(b: Bucket, now: real): real { Amount(now - b.last, b.rate) }

  function RefillBy(b: Bucket, amount: real, now: real): Bucket {
    var level := b.level + amount;
    b.(level := if level > b.capacity then b.capacity else level, last := now)
  }

  function Refill(b: Bucket, now: real): Bucket { RefillBy(b, Flow(b, now), now) }

  function TakeToken(b: Bucket): Reply {
    if b.level >= 1.0 then Reply(b.(level := b.level - 1.0), true) else Reply(b, false)
  }

  function AllowToken(b: Bucket, now: real): Reply { TakeToken(Refill(b, now)) }

  // ---------- The leaky bucket ----------

  function EmptyBucket(rate: real, burst: real, now: real): Bucket { Bucket(0.0, Burst(rate, burst), rate, now) }

  function DrainBy(b: Bucket, amount: real, now: real): Bucket {
    var level := b.level - amount;
    b.(level := if level < 0.0 then 0.0 else level, last := now)
  }

  function Drain(b: Bucket, now: real): Bucket { DrainBy(b, Flow(b, now), now) }

  function AddWater(b: Bucket): Reply {
    if b.level + 1.0 <= b.capacity then Reply(b.(level := b.level + 1.0), true) else Reply(b, false)
  }

  function AllowWater(b: Bucket, now: real): Reply { AddWater(Drain(b, now)) }

  // ---------- Arrivals ----------

  // The token bucket after the first k arrivals.
  function Tokens(b: Bucket, ts: seq<real>, k: nat): Bucket
    requires k <= |ts|
  {
    if k == 0 then b else AllowToken(Tokens(b, ts, k - 1), ts[k - 1]).bucket
  }

  function Water(b: Bucket, ts: seq<real>, k: nat): Bucket
    requires k <= |ts|
  {
    if k == 0 then b else AllowWater(Water(b, ts, k - 1), ts[k - 1]).bucket
  }

  predicate TokenAdmits(b: Bucket, ts: seq<real>, k: nat)
    requires k < |ts|
  {
    AllowToken(Tokens(b, ts, k), ts[k]).ok
  }

  predicate WaterAdmits(b: Bucket, ts: seq<real>, k: nat)
    requires k < |ts|
  {
    AllowWater(Water(b, ts, k), ts[k]).ok
  }

  // ---------- Duality ----------

  // The tokens left are the room left for water.
  predicate Dual(t: Bucket, w: Bucket) {
    t.capacity == w.capacity && t.rate == w.rate && t.last == w.last && t.level == w.capacity - w.level
  }

  lemma {:induction false} AllowDualBy(t: Bucket, w: Bucket, amount: real, now: real)
    requires Dual(t, w)
    ensures TakeToken(RefillBy(t, amount, now)).ok == AddWater(DrainBy(w, amount, now)).ok
    ensures Dual(TakeToken(RefillBy(t, amount, now)).bucket, AddWater(DrainBy(w, amount, now)).bucket)
  {
  }

  lemma {:induction false} AllowDual(t: Bucket, w: Bucket, now: real)
    requires Dual(t, w)
    ensures AllowToken(t, now).ok == AllowWater(w, now).ok
    ensures Dual(AllowToken(t, now).bucket, AllowWater(w, now).bucket)
  {
    var amount := Flow(t, now);
    assert amount == Flow(w, now);
    AllowDualBy(t, w, amount, now);
  }

  lemma {:induction false} DualThroughout(t: Bucket, w: Bucket, ts: seq<real>, k: nat)
    requires Dual(t, w) && k <= |ts|
    ensures Dual(Tokens(t, ts, k), Water(w, ts, k))
  {
    if k > 0 {
      DualThroughout(t, w, ts, k - 1);
      AllowDual(Tokens(t, ts, k - 1), Water(w, ts, k - 1), ts[k - 1]);
    }
  }

  // With equal rate and burst and the same clock, both limiters decide alike on
  // every arrival sequence.
  lemma {:induction false} SameDecisions(rate: real, burst: real, start: real, ts: seq<real>, k: nat)
    requires k < |ts|
    ensures TokenAdmits(FullBucket(rate, burst, start), ts, k) == WaterAdmits(EmptyBucket(rate, burst, start), ts, k)
  {
    var t, w := FullBucket(rate, burst, start), EmptyBucket(rate, burst, start);
    DualThroughout(t, w, ts, k);
    AllowDual(Tokens(t, ts, k), Water(w, ts, k), ts[k]);
  }

  // ---------- The admission bound ----------

  ghost predicate Ascending(start: real, ts: seq<real>) {
    && (forall i :: 0 <= i < |ts| ==> start <= ts[i])
    && forall i, j :: 0 <= i < j < |ts| ==> ts[i] <= ts[j]
  }

  ghost predicate Sound(b: Bucket) { 0.0 <= b.level <= b.capacity && b.rate >= 0.0 }

  lemma {:induction false} FlowsIn(b: Bucket, now: real)
    requires b.last <= now && b.rate >= 0.0
    ensures Flow(b, now) >= 0.0
  {
    var elapsed := now - b.last;
    assert elapsed * b.rate >= 0.0;
  }

  lemma {:induction false} AllowSoundBy(b: Bucket, amount: real, now: real)
    requires Sound(b) && amount >= 0.0
    ensures var r := TakeToken(RefillBy(b, amount, now));
            && Sound(r.bucket) && r.bucket.last == now && r.bucket.capacity == b.capacity && r.bucket.rate == b.rate
            && r.bucket.level + One(r.ok) <= b.level + amount && r.bucket.level + One(r.ok) <= b.capacity
  {
  }

  function One(ok: bool): real { if ok then 1.0 else 0.0 }

  lemma {:induction false} AllowSound(b: Bucket, now: real)
    requires Sound(b) && b.last <= now
    ensures var r := AllowToken(b, now);
            && Sound(r.bucket) && r.bucket.last == now && r.bucket.capacity == b.capacity && r.bucket.rate == b.rate
            && r.bucket.level + One(r.ok) <= b.level + Flow(b, now) && r.bucket.level + One(r.ok) <= b.capacity
  {
    FlowsIn(b, now);
    AllowSoundBy(b, Flow(b, now), now);
  }

  lemma {:induction false} TokensSound(b: Bucket, ts: seq<real>, k: nat)
    requires Sound(b) && Ascending(b.last, ts) && k <= |ts|
    ensures var c := Tokens(b, ts, k);
            && Sound(c) && c.capacity == b.capacity && c.rate == b.rate
            && c.last == if k == 0 then b.last else ts[k - 1]
  {
    if k > 0 {
      TokensSound(b, ts, k - 1);
      AllowSound(Tokens(b, ts, k - 1), ts[k - 1]);
    }
  }

  // How many of the arrivals from i up to but not including j are admitted.
  function Admitted(b: Bucket, ts: seq<real>, i: nat, j: nat): int
    requires i <= j <= |ts|
  {
    if i == j then 0 else Admitted(b, ts, i, j - 1) + if TokenAdmits(b, ts, j - 1) then 1 else 0
  }

  // The same count as a real number.
  function Taken(b: Bucket, ts: seq<real>, i: nat, j: nat): real
    requires i <= j <= |ts|
  {
    if i == j then 0.0 else Taken(b, ts, i, j - 1) + One(TokenAdmits(b, ts, j - 1))
  }

  lemma {:induction false} TakenIsAdmitted(b: Bucket, ts: seq<real>, i: nat, j: nat)
    requires i <= j <= |ts|
    ensures Taken(b, ts, i, j) == Admitted(b, ts, i, j) as real
  {
    if i < j {
      TakenIsAdmitted(b, ts, i, j - 1);
    }
  }

  lemma {:induction false} Distribute(a: real, b: real, c: real, r: real)
    ensures Amount(c - a, r) == Amount(b - a, r) + Amount(c - b, r)
  {
  }

  // What was admitted since arrival i plus what is left is at most a full bucket
  // plus what flowed in.
  ghost predicate Conserved(b: Bucket, ts: seq<real>, i: nat, j: nat)
    requires i < j <= |ts|
  {
    Taken(b, ts, i, j) + Tokens(b, ts, j).level <= b.capacity + Amount(ts[j - 1] - ts[i], b.rate)
  }

  lemma {:induction false} ConservedStart(b: Bucket, ts: seq<real>, i: nat)
    requires Sound(b) && Ascending(b.last, ts) && i < |ts|
    ensures Conserved(b, ts, i, i + 1)
  {
    TokensSound(b, ts, i);
    AllowSound(Tokens(b, ts, i), ts[i]);
    assert Taken(b, ts, i, i) == 0.0;
    assert Amount(ts[i] - ts[i], b.rate) == 0.0;
  }

  lemma {:induction false} Combine(taken: real, level: real, capacity: real, before: real, flow: real, after: real,
                                   one: real, level': real)
    requires taken + level <= capacity + before && level' + one <= level + flow && after == before + flow
    ensures (taken + one) + level' <= capacity + after
  {
  }

  lemma {:induction false} ConservedNext(b: Bucket, ts: seq<real>, i: nat, j: nat)
    requires Sound(b) && Ascending(b.last, ts) && i < j < |ts| && Conserved(b, ts, i, j)
    ensures Conserved(b, ts, i, j + 1)
  {
    var c := Tokens(b, ts, j);
    TokensSound(b, ts, j);
    AllowSound(c, ts[j]);
    Distribute(ts[i], ts[j - 1], ts[j], b.rate);
    var r, flow := AllowToken(c, ts[j]), Flow(c, ts[j]);
    Combine(Taken(b, ts, i, j), c.level, b.capacity, Amount(ts[j - 1] - ts[i], b.rate), flow,
            Amount(ts[j] - ts[i], b.rate), One(r.ok), r.bucket.level);
  }

  lemma {:induction false} TokensConserved(b: Bucket, ts: seq<real>, i: nat, j: nat)
    requires Sound(b) && Ascending(b.last, ts) && i < j <= |ts|
    ensures Conserved(b, ts, i, j)
  {
    var k := i + 1;
    ConservedStart(b, ts, i);
    while k < j
      invariant i < k <= j && Conserved(b, ts, i, k)
    {
      ConservedNext(b, ts, i, k);
      k := k + 1;
    }
  }

  // Between any two arrivals at most burst + rate * elapsed requests are admitted.
  lemma {:induction false} AdmissionBound(rate: real, burst: real, start: real, ts: seq<real>, i: nat, j: nat)
    requires rate >= 0.0 && Ascending(start, ts) && i < j <= |ts|
    ensures Admitted(FullBucket(rate, burst, start), ts, i, j) as real <=
            Burst(rate, burst) + Amount(ts[j - 1] - ts[i], rate)
  {
    var b := FullBucket(rate, burst, start);
    TokensConserved(b, ts, i, j);
    TokensSound(b, ts, j);
    TakenIsAdmitted(b, ts, i, j);
    assert Taken(b, ts, i, j) <= b.capacity + Amount(ts[j - 1] - ts[i], b.rate);
  }

  // How many of the same arrivals a leaky bucket admits.
  function Poured(b: Bucket, ts: seq<real>, i: nat, j: nat): int
    requires i <= j <= |ts|
  {
    if i == j then 0 else Poured(b, ts, i, j - 1) + if WaterAdmits(b, ts, j - 1) then 1 else 0
  }

  lemma {:induction false} PouredIsAdmitted(rate: real, burst: real, start: real, ts: seq<real>, i: nat, j: nat)
    requires i <= j <= |ts|
    ensures Poured(EmptyBucket(rate, burst, start), ts, i, j) == Admitted(FullBucket(rate, burst, start), ts, i, j)
  {
    if i < j {
      PouredIsAdmitted(rate, burst, start, ts, i, j - 1);
      SameDecisions(rate, burst, start, ts, j - 1);
    }
  }

  // The leaky bucket obeys the same bound.
  lemma {:induction false} LeakyAdmissionBound(rate: real, burst: real, start: real, ts: seq<real>, i: nat, j: nat)
    requires rate >= 0.0 && Ascending(start, ts) && i < j <= |ts|
    ensures Poured(EmptyBucket(rate, burst, start), ts, i, j) as real <=
            Burst(rate, burst) + Amount(ts[j - 1] - ts[i], rate)
  {
    PouredIsAdmitted(rate, burst, start, ts, i, j);
    AdmissionBound(rate, burst, start, ts, i, j);
  }

  // ---------- When a request must be admitted ----------

  // The refilled bucket before arrival j holds what a bucket full at arrival i would
  // hold if nothing had overflowed since.
  ghost predicate FullAt(b: Bucket, ts: seq<real>, i: nat, j: nat)
    requires i <= j < |ts|
  {
    Refill(Tokens(b, ts, j), ts[j]).level == b.capacity + Amount(ts[j] - ts[i], b.rate) - Taken(b, ts, i, j)
  }

  lemma {:induction false} RefillSplit(c: Bucket, amount: real, now: real)
    ensures var r := RefillBy(c, amount, now);
            && (c.level + amount >= c.capacity ==> r.level == c.capacity)
            && (c.level + amount < c.capacity ==> r.level == c.level + amount)
  {
  }

  // At every arrival there is such an i: the last one at which the bucket was full.
  lemma {:induction false} LastFull(b: Bucket, ts: seq<real>, j: nat) returns (i: nat)
    requires Sound(b) && b.level == b.capacity && Ascending(b.last, ts) && j < |ts|
    ensures i <= j && FullAt(b, ts, i, j)
    decreases j
  {
    var c := Tokens(b, ts, j);
    TokensSound(b, ts, j);
    FlowsIn(c, ts[j]);
    RefillSplit(c, Flow(c, ts[j]), ts[j]);
    if c.level + Flow(c, ts[j]) >= c.capacity {
      i := j;
      assert Amount(ts[j] - ts[j], b.rate) == 0.0;
    } else {
      i := LastFull(b, ts, j - 1);
      FullStays(b, ts, i, j - 1);
    }
  }

  lemma {:induction false} FullStays(b: Bucket, ts: seq<real>, i: nat, j: nat)
    requires Sound(b) && Ascending(b.last, ts) && i <= j && j + 1 < |ts| && FullAt(b, ts, i, j)
    requires Tokens(b, ts, j + 1).level + Flow(Tokens(b, ts, j + 1), ts[j + 1]) < b.capacity
    ensures FullAt(b, ts, i, j + 1)
  {
    var c, d := Tokens(b, ts, j), Tokens(b, ts, j + 1);
    TokensSound(b, ts, j);
    TokensSound(b, ts, j + 1);
    Distribute(ts[i], ts[j], ts[j + 1], b.rate);
    RefillSplit(d, Flow(d, ts[j + 1]), ts[j + 1]);
    assert d.level == Refill(c, ts[j]).level - One(TokenAdmits(b, ts, j));
    assert Taken(b, ts, i, j + 1) == Taken(b, ts, i, j) + One(TokenAdmits(b, ts, j));
  }

  // One more request since arrival i would not exceed the burst and what flowed in.
  ghost predicate Affordable(b: Bucket, ts: seq<real>, i: nat, j: nat)
    requires i <= j < |ts|
  {
    Admitted(b, ts, i, j) as real + 1.0 <= b.capacity + Amount(ts[j] - ts[i], b.rate)
  }

  // A request is admitted exactly when, counted from every earlier arrival on and
  // from itself, the bound leaves room for one more.
  lemma {:induction false} AdmittedExactly(rate: real, burst: real, start: real, ts: seq<real>, j: nat)
    requires rate >= 0.0 && Ascending(start, ts) && j < |ts|
    ensures var b := FullBucket(rate, burst, start);
            TokenAdmits(b, ts, j) <==> forall i :: 0 <= i <= j ==> Affordable(b, ts, i, j)
  {
    var b := FullBucket(rate, burst, start);
    if TokenAdmits(b, ts, j) {
      forall i | 0 <= i <= j ensures Affordable(b, ts, i, j) {
        AdmissionBound(rate, burst, start, ts, i, j + 1);
      }
    } else {
      var i := LastFull(b, ts, j);
      TakenIsAdmitted(b, ts, i, j);
      assert !Affordable(b, ts, i, j);
    }
  }

  ghost predicate Absorbable(b: Bucket, ts: seq<real>, i: nat, j: nat)
    requires i <= j < |ts|
  {
    Poured(b, ts, i, j) as real + 1.0 <= b.capacity + Amount(ts[j] - ts[i], b.rate)
  }

  // The same for the leaky bucket.
  lemma {:induction false} PouredExactly(rate: real, burst: real, start: real, ts: seq<real>, j: nat)
    requires rate >= 0.0 && Ascending(start, ts) && j < |ts|
    ensures var b := EmptyBucket(rate, burst, start);
            WaterAdmits(b, ts, j) <==> forall i :: 0 <= i <= j ==> Absorbable(b, ts, i, j)
  {
    SameDecisions(rate, burst, start, ts, j);
    AdmittedExactly(rate, burst, start, ts, j);
    forall i | 0 <= i <= j
      ensures Absorbable(EmptyBucket(rate, burst, start), ts, i, j) ==
              Affordable(FullBucket(rate, burst, start), ts, i, j)
    {
      PouredIsAdmitted(rate, burst, start, ts, i, j);
    }
  }

  // ---------- The limiters ----------

  class TokenBucket {
    var tokens: real
    var capacity: real
    var refillRate: real
    var lastRefill: real

    function Value(): Bucket
      reads this
    {
      Bucket(tokens, capacity, refillRate, lastRefill)
    }

    constructor (rate: real, burst: real, now: real)
      ensures Value() == FullBucket(rate, burst, now)
    {
      var b := if burst > 0.0 then burst else if rate > 0.0 then rate else 10.0;
      tokens, capacity, refillRate, lastRefill := b, b, rate, now;
    }

    method RefillTokens(now: real)
      modifies this
      ensures Value() == Refill(old(Value()), now)
    {
      var elapsed := now - lastRefill;
      tokens := tokens + Amount(elapsed, refillRate);
      if tokens > capacity {
        tokens := capacity;
      }
      lastRefill := now;
    }

    method Allow(now: real) returns (ok: bool)
      modifies this
      ensures Reply(Value(), ok) == AllowToken(old(Value()), now)
    {
      RefillTokens(now);
      if tokens >= 1.0 {
        tokens := tokens - 1.0;
        return true;
      }
      return false;
    }
  }

  class LeakyBucket {
    var capacity: real
    var waterLevel: real
    var drainRate: real
    var lastDrain: real

    function Value(): Bucket
      reads this
    {
      Bucket(waterLevel, capacity, drainRate, lastDrain)
    }

    constructor (rate: real, burst: real, now: real)
      ensures Value() == EmptyBucket(rate, burst, now)
    {
      capacity := if burst > 0.0 then burst else if rate > 0.0 then rate else 10.0;
      waterLevel, drainRate, lastDrain := 0.0, rate, now;
    }

    method DrainWater(now: real)
      modifies this
      ensures Value() == Drain(old(Value()), now)
    {
      var elapsed := now - lastDrain;
      waterLevel := waterLevel - Amount(elapsed, drainRate);
      if waterLevel < 0.0 {
        waterLevel := 0.0;
      }
      lastDrain := now;
    }

    method Allow(now: real) returns (ok: bool)
      modifies this
      ensures Reply(Value(), ok) == AllowWater(old(Value()), now)
    {
      DrainWater(now);
      if waterLevel + 1.0 <= capacity {
        waterLevel := waterLevel + 1.0;
        return true;
      }
      return false;
    }
  }
}
