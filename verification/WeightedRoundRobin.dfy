/**
 * Smooth weighted round robin: each selection raises every healthy server by its
 * weight, picks the first of the highest, and charges it the total weight.
 */
module WeightedRoundRobin {

  datatype Server = Server(address: string, weight: nat, current: int, healthy: bool)

  // ---------- One selection ----------

  function Gain(s: Server): nat { if s.healthy then s.weight else 0 }

  function Raise(s: Server): Server { s.(current := s.current + Gain(s)) }

  function RaiseAll(ss: seq<Server>): seq<Server> { seq(|ss|, i requires 0 <= i < |ss| => Raise(ss[i])) }

  // The first healthy server of highest current weight among the first k, or -1.
  function Highest(ss: seq<Server>, k: nat): (b: int)
    requires k <= |ss|
    ensures -1 <= b < k
    ensures b < 0 <==> forall i :: 0 <= i < k ==> !ss[i].healthy
    ensures b >= 0 ==> ss[b].healthy
    ensures b >= 0 ==> forall i :: 0 <= i < k && ss[i].healthy ==> ss[i].current <= ss[b].current
    ensures b >= 0 ==> forall i :: 0 <= i < b && ss[i].healthy ==> ss[i].current < ss[b].current
  {
    if k == 0 then -1 else
    var b := Highest(ss, k - 1);
    if ss[k - 1].healthy && (b < 0 || ss[k - 1].current > ss[b].current) then k - 1 else b
  }

  function Gains(ss: seq<Server>): seq<int> { seq(|ss|, i requires 0 <= i < |ss| => Gain(ss[i])) }

  function Currents(ss: seq<Server>): seq<int> { seq(|ss|, i requires 0 <= i < |ss| => ss[i].current) }

  function Sum(s: seq<int>): int { if s == [] then 0 else Sum(s[..|s| - 1]) + s[|s| - 1] }

  function Total(ss: seq<Server>): int { Sum(Gains(ss)) }

  function Chosen(ss: seq<Server>): int { Highest(RaiseAll(ss), |ss|) }

  function Select(ss: seq<Server>): seq<Server> {
    var up, b := RaiseAll(ss), Chosen(ss);
    if b < 0 then up else up[b := up[b].(current := up[b].current - Total(ss))]
  }

  // ---------- Runs ----------

  // The servers and how often each was chosen so far.
  datatype Progress = Progress(servers: seq<Server>, counts: seq<int>)

  function Zeros(n: nat): seq<int> { seq(n, _ => 0) }

  function Counted(counts: seq<int>, b: int): seq<int> {
    if 0 <= b < |counts| then counts[b := counts[b] + 1] else counts
  }

  function Next(p: Progress): Progress { Progress(Select(p.servers), Counted(p.counts, Chosen(p.servers))) }

  // The progress after t selections.
  function Run(ss: seq<Server>, t: nat): (p: Progress)
    ensures |p.servers| == |p.counts| == |ss|
  {
    if t == 0 then Progress(ss, Zeros(|ss|)) else Next(Run(ss, t - 1))
  }

  // A balancer that has made no selection, with at least one healthy server.
  ghost predicate Fresh(ss: seq<Server>) {
    && (forall i :: 0 <= i < |ss| ==> ss[i].weight > 0 && ss[i].current == 0)
    && exists i :: 0 <= i < |ss| && ss[i].healthy
  }

  // ---------- Sums ----------

  lemma {:induction false} SumUpdate(s: seq<int>, i: nat, x: int)
    requires i < |s|
    ensures Sum(s[i := x]) == Sum(s) - s[i] + x
  {
    var n := |s| - 1;
    if i == n {
      assert s[i := x][..n] == s[..n];
    } else {
      assert s[i := x][..n] == s[..n][i := x];
      SumUpdate(s[..n], i, x);
    }
  }

  lemma {:induction false} SumAdd(a: seq<int>, b: seq<int>, c: seq<int>)
    requires |a| == |b| == |c| && forall i :: 0 <= i < |a| ==> c[i] == a[i] + b[i]
    ensures Sum(c) == Sum(a) + Sum(b)
  {
    if a != [] {
      SumAdd(a[..|a| - 1], b[..|a| - 1], c[..|a| - 1]);
    }
  }

  lemma {:induction false} SumPositive(s: seq<int>)
    requires Sum(s) > 0
    ensures exists i :: 0 <= i < |s| && s[i] > 0
  {
    if s[|s| - 1] <= 0 {
      SumPositive(s[..|s| - 1]);
      var i :| 0 <= i < |s| - 1 && s[..|s| - 1][i] > 0;
      assert s[i] > 0;
    }
  }

  lemma {:induction false} SumDominated(a: seq<int>, b: seq<int>)
    requires |a| == |b| && forall i :: 0 <= i < |a| ==> a[i] <= b[i]
    ensures Sum(a) <= Sum(b)
    ensures Sum(a) == Sum(b) ==> a == b
  {
    if a != [] {
      SumDominated(a[..|a| - 1], b[..|a| - 1]);
      assert a == a[..|a| - 1] + [a[|a| - 1]] && b == b[..|a| - 1] + [b[|a| - 1]];
    }
  }

  lemma {:induction false} SumScaled(a: seq<int>, b: seq<int>, m: int)
    requires |a| == |b| && forall i :: 0 <= i < |a| ==> b[i] == m * a[i]
    ensures Sum(b) == m * Sum(a)
  {
    if a != [] {
      SumScaled(a[..|a| - 1], b[..|a| - 1], m);
    }
  }

  lemma {:induction false} SumZeros(s: seq<int>)
    requires forall i :: 0 <= i < |s| ==> s[i] == 0
    ensures Sum(s) == 0
  {
    if s != [] {
      SumZeros(s[..|s| - 1]);
    }
  }

  // ---------- The invariant ----------

  ghost predicate SameServers(ss: seq<Server>, rs: seq<Server>) {
    |ss| == |rs| && forall i :: 0 <= i < |ss| ==>
                                  rs[i].healthy == ss[i].healthy && rs[i].weight == ss[i].weight
  }

  lemma {:induction false} SameGains(ss: seq<Server>, rs: seq<Server>)
    requires SameServers(ss, rs)
    ensures Gains(rs) == Gains(ss)
  {
  }

  // The raised weights of a balanced state add up to the total weight, so the
  // chosen server stands above zero.
  lemma {:induction false} ChosenIsPositive(ss: seq<Server>)
    requires Sum(Currents(ss)) == 0 && Total(ss) > 0
    requires forall i :: 0 <= i < |ss| && !ss[i].healthy ==> ss[i].current == 0
    ensures Chosen(ss) >= 0 && RaiseAll(ss)[Chosen(ss)].current > 0
  {
    var up := RaiseAll(ss);
    SumAdd(Currents(ss), Gains(ss), Currents(up));
    SumPositive(Currents(up));
    var i :| 0 <= i < |ss| && Currents(up)[i] > 0;
    assert up[i].healthy;
  }

  lemma {:induction false} SelectBalanced(ss: seq<Server>)
    requires Sum(Currents(ss)) == 0 && Chosen(ss) >= 0
    ensures Sum(Currents(Select(ss))) == 0
  {
    var up, b := RaiseAll(ss), Chosen(ss);
    SumAdd(Currents(ss), Gains(ss), Currents(up));
    assert Currents(Select(ss)) == Currents(up)[b := up[b].current - Total(ss)];
    SumUpdate(Currents(up), b, up[b].current - Total(ss));
  }

  // Repeated addition, so that the bookkeeping below is linear.
  ghost function Times(n: nat, x: int): int { if n == 0 then 0 else Times(n - 1, x) + x }

  lemma {:induction false} TimesIsProduct(n: nat, x: int)
    ensures Times(n, x) == n * x
  {
    if n > 0 {
      TimesIsProduct(n - 1, x);
      assert n * x == (n - 1) * x + x;
    }
  }

  // A server after t selections: its current weight is what it was raised less
  // what it was charged, and it is less than one total below zero.
  ghost predicate Account(before: Server, after: Server, count: int, t: nat, w: int) {
    && after.healthy == before.healthy && after.weight == before.weight && count >= 0
    && after.current == Times(t, Gain(before)) - Times(count, w) && after.current > -w
    && (!before.healthy ==> after.current == 0 && count == 0)
  }

  // After t selections the current weights sum to zero and every account is right.
  ghost predicate Balanced(ss: seq<Server>, p: Progress, t: nat) {
    && |p.servers| == |ss| == |p.counts| && Sum(Currents(p.servers)) == 0 && Sum(p.counts) == t
    && forall i :: 0 <= i < |ss| ==> AccountAt(ss, p, t, i)
  }

  ghost predicate AccountAt(ss: seq<Server>, p: Progress, t: nat, i: nat)
    requires i < |ss| == |p.servers| == |p.counts|
  {
    Account(ss[i], p.servers[i], p.counts[i], t, Total(ss))
  }

  lemma {:induction false} FreshTotal(ss: seq<Server>)
    requires Fresh(ss)
    ensures Total(ss) > 0 && Sum(Currents(ss)) == 0
  {
    SumZeros(Currents(ss));
    var zeros := Zeros(|ss|);
    SumZeros(zeros);
    SumDominated(zeros, Gains(ss));
    var i :| 0 <= i < |ss| && ss[i].healthy;
    assert Gains(ss)[i] > 0 && zeros[i] == 0;
  }

  lemma {:induction false} StartBalanced(ss: seq<Server>)
    requires Fresh(ss)
    ensures Balanced(ss, Progress(ss, Zeros(|ss|)), 0)
  {
    FreshTotal(ss);
    SumZeros(Zeros(|ss|));
  }

  lemma {:induction false} RunBalanced(ss: seq<Server>, t: nat)
    requires Fresh(ss)
    ensures Balanced(ss, Run(ss, t), t)
  {
    var p, k := Progress(ss, Zeros(|ss|)), 0;
    StartBalanced(ss);
    assert Total(ss) > 0 by { FreshTotal(ss); }
    while k < t
      invariant k <= t && p == Run(ss, k) && Balanced(ss, p, k)
    {
      NextBalanced(ss, p, k);
      p, k := Next(p), k + 1;
    }
  }

  lemma {:induction false} NextBalanced(ss: seq<Server>, p: Progress, t: nat)
    requires Balanced(ss, p, t) && Total(ss) > 0
    ensures Balanced(ss, Next(p), t + 1)
  {
    BalancedServers(ss, p, t);
    SameGains(ss, p.servers);
    ChosenIsPositive(p.servers);
    NextSums(p);
    var p', t' := Next(p), t + 1;
    forall i | 0 <= i < |ss| ensures AccountAt(ss, p', t', i) {
      assert AccountAt(ss, p, t, i);
      NextAccount(ss, p, t, i);
    }
  }

  lemma {:induction false} NextSums(p: Progress)
    requires |p.servers| == |p.counts| && Sum(Currents(p.servers)) == 0 && Chosen(p.servers) >= 0
    ensures |Next(p).servers| == |Next(p).counts| == |p.counts|
    ensures Sum(Currents(Next(p).servers)) == 0 && Sum(Next(p).counts) == Sum(p.counts) + 1
  {
    var b := Chosen(p.servers);
    SelectBalanced(p.servers);
    SumUpdate(p.counts, b, p.counts[b] + 1);
  }

  // Accounts keep health and weights, and leave the unhealthy servers at zero.
  lemma {:induction false} BalancedServers(ss: seq<Server>, p: Progress, t: nat)
    requires Balanced(ss, p, t)
    ensures SameServers(ss, p.servers)
    ensures forall i :: 0 <= i < |ss| && !p.servers[i].healthy ==> p.servers[i].current == 0
  {
    forall i | 0 <= i < |ss|
      ensures p.servers[i].healthy == ss[i].healthy && p.servers[i].weight == ss[i].weight
      ensures !p.servers[i].healthy ==> p.servers[i].current == 0
    {
      assert AccountAt(ss, p, t, i);
    }
  }

  lemma {:induction false} NextAccount(ss: seq<Server>, p: Progress, t: nat, i: nat)
    requires |p.servers| == |ss| == |p.counts| && i < |ss|
    requires Account(ss[i], p.servers[i], p.counts[i], t, Total(ss)) && Total(p.servers) == Total(ss) > 0
    requires Chosen(p.servers) >= 0 && RaiseAll(p.servers)[Chosen(p.servers)].current > 0
    ensures Account(ss[i], Next(p).servers[i], Next(p).counts[i], t + 1, Total(ss))
  {
    assert Times(t + 1, Gain(ss[i])) == Times(t, Gain(ss[i])) + Gain(ss[i]);
    assert Times(p.counts[i] + 1, Total(ss)) == Times(p.counts[i], Total(ss)) + Total(ss);
  }

  // ---------- Fairness ----------

  lemma {:induction false} AccountProducts(before: Server, after: Server, count: int, t: nat, w: int)
    requires Account(before, after, count, t, w)
    ensures after.current == t * Gain(before) - w * count
    ensures w * count < t * Gain(before) + w
  {
    TimesIsProduct(t, Gain(before));
    TimesIsProduct(count, w);
    assert count * w == w * count;
  }

  // No server is ever ahead of its share by a full selection or more.
  lemma {:induction false} NeverAhead(ss: seq<Server>, t: nat, i: nat)
    requires Fresh(ss) && i < |ss|
    ensures Total(ss) * Run(ss, t).counts[i] < t * Gain(ss[i]) + Total(ss)
    ensures Run(ss, t).servers[i].current == t * Gain(ss[i]) - Total(ss) * Run(ss, t).counts[i]
    ensures Sum(Currents(Run(ss, t).servers)) == 0
  {
    RunBalanced(ss, t);
    assert AccountAt(ss, Run(ss, t), t, i);
    AccountProducts(ss[i], Run(ss, t).servers[i], Run(ss, t).counts[i], t, Total(ss));
  }

  lemma {:induction false} Regroup(m: int, w: int, g: int)
    ensures (m * w) * g == w * (m * g)
  {
    assert (m * w) * g == m * (w * g);
  }

  lemma {:induction false} LessThanOne(w: int, k: int)
    requires w > 0 && w * k < w
    ensures k < 1
  {
    assert k >= 1 ==> w * (k - 1) >= 0;
    assert w * (k - 1) == w * k - w;
  }

  lemma {:induction false} WholeShare(w: int, count: int, m: nat, g: int)
    requires w > 0 && w * count < (m * w) * g + w
    ensures count <= m * g
    ensures count == m * g ==> w * count == (m * w) * g
  {
    Regroup(m, w, g);
    assert w * (count - m * g) == w * count - w * (m * g);
    LessThanOne(w, count - m * g);
  }

  // Fairness: after every whole number m of cycles each healthy server has been
  // chosen exactly m times its weight, and the balancer is back where it started.
  lemma {:induction false} CycleFairness(ss: seq<Server>, m: nat)
    requires Fresh(ss)
    ensures Total(ss) > 0
    ensures forall i :: 0 <= i < |ss| ==> Run(ss, m * Total(ss)).counts[i] == m * Gain(ss[i])
    ensures Run(ss, m * Total(ss)).servers == ss
  {
    FreshTotal(ss);
    var t := m * Total(ss);
    var counts, shares := Run(ss, t).counts, Shares(ss, m);
    CycleCounts(ss, m, t);
    RunKeepsServers(ss, t);
    forall i | 0 <= i < |ss| ensures Run(ss, t).servers[i] == ss[i] {
      NeverAhead(ss, t, i);
      WholeShare(Total(ss), counts[i], m, Gain(ss[i]));
      assert counts[i] == shares[i];
      assert Run(ss, t).servers[i].(current := 0) == ss[i].(current := 0);
    }
  }

  ghost function Shares(ss: seq<Server>, m: nat): seq<int> {
    seq(|ss|, i requires 0 <= i < |ss| => m * Gain(ss[i]))
  }

  lemma {:induction false} CycleCounts(ss: seq<Server>, m: nat, t: nat)
    requires Fresh(ss) && t == m * Total(ss)
    ensures Run(ss, t).counts == Shares(ss, m)
  {
    var counts, shares := Run(ss, t).counts, Shares(ss, m);
    FreshTotal(ss);
    RunBalanced(ss, t);
    forall i | 0 <= i < |ss| ensures counts[i] <= shares[i] {
      NeverAhead(ss, t, i);
      WholeShare(Total(ss), counts[i], m, Gain(ss[i]));
    }
    SumScaled(Gains(ss), shares, m);
    SumDominated(counts, shares);
  }

  lemma {:induction false} RunKeepsServers(ss: seq<Server>, t: nat)
    ensures forall i :: 0 <= i < |ss| ==> Run(ss, t).servers[i].(current := 0) == ss[i].(current := 0)
  {
    if t > 0 {
      RunKeepsServers(ss, t - 1);
    }
  }
}
