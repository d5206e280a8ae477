/** The load balancer: its server table, smooth weighted selection and hash ring. */
module LoadBalancer {
  import opened WeightedRoundRobin
  import opened ConsistentHash

  const MAX_SERVERS := 32
  const VIRTUAL_NODES := 150

  datatype Algorithm = WeightedRR | ConsistentHashing | Other

  function Addresses(ss: seq<Server>): seq<string> {
    seq(|ss|, i requires 0 <= i < |ss| => ss[i].address)
  }

  // The first server with the address, or the number of servers.
  function IndexOf(ss: seq<Server>, address: string, i: nat): (r: nat)
    requires i <= |ss|
    ensures i <= r <= |ss| && (r < |ss| ==> ss[r].address == address)
    ensures forall k :: i <= k < r ==> ss[k].address != address
    decreases |ss| - i
  {
    if i == |ss| || ss[i].address == address then i else IndexOf(ss, address, i + 1)
  }

  // The healthy server that a round robin reaches first from a start index within
  // the given tries, or -1, and the index it goes on from.
  function RoundRobin(ss: seq<Server>, start: nat, tries: nat): (int, nat)
    decreases tries
  {
    if tries == 0 || ss == [] then (-1, start)
    else if ss[start % |ss|].healthy then (start % |ss|, start + 1)
    else RoundRobin(ss, start + 1, tries - 1)
  }

  // A round robin skips to the first healthy server from the index on, and goes on
  // after it; it gives up after one round without any.
  lemma {:induction false} RoundRobinExactly(ss: seq<Server>, start: nat, tries: nat)
    requires tries <= |ss|
    ensures var (i, next) := RoundRobin(ss, start, tries);
            if i >= 0 then
              && start < next <= start + tries && i == (next - 1) % |ss| && ss[i].healthy
              && forall x :: start <= x < next - 1 ==> !ss[x % |ss|].healthy
            else
              && i == -1 && next == start + tries
              && forall x :: start <= x < start + tries ==> !ss[x % |ss|].healthy
    decreases tries
  {
    if tries > 0 && !ss[start % |ss|].healthy {
      RoundRobinExactly(ss, start + 1, tries - 1);
    }
  }

  // One round visits every server, so it fails exactly when all are unhealthy.
  lemma {:induction false} RoundRobinFinds(ss: seq<Server>, start: nat)
    ensures RoundRobin(ss, start, |ss|).0 == -1 <==> forall i :: 0 <= i < |ss| ==> !ss[i].healthy
  {
    RoundRobinExactly(ss, start, |ss|);
    if RoundRobin(ss, start, |ss|).0 == -1 {
      forall i | 0 <= i < |ss| ensures !ss[i].healthy {
        var x := Visit(start, |ss|, i);
        assert !ss[x % |ss|].healthy;
      }
    }
  }

  lemma {:induction false} Remainder(x: nat, n: nat, q: nat, r: nat)
    requires r < n && x == n * q + r
    ensures x % n == r
  {
    var d := q - x / n;
    assert x == n * (x / n) + x % n;
    assert n * d == x % n - r by { assert n * d == n * q - n * (x / n); }
  }

  lemma {:induction false} Visit(start: nat, n: nat, i: nat) returns (x: nat)
    requires i < n
    ensures start <= x < start + n && x % n == i
  {
    var q, r := start / n, start % n;
    assert start == n * q + r;
    if r <= i {
      x := start + i - r;
      Remainder(x, n, q, i);
    } else {
      x := start + n + i - r;
      assert n * (q + 1) == n * q + n;
      Remainder(x, n, q + 1, i);
    }
  }

  lemma {:induction false} FirstIs(ring: Ring, h: nat, r: nat)
    requires r <= |ring| && Below(ring[..r], h) && (r < |ring| ==> ring[r].hash >= h)
    ensures FirstAtLeast(ring, h, 0) == r
  {
    assert ring == ring[..r] + ring[r..];
    SplitAt(ring[..r], ring[r..], h);
  }

  // The total weight of the first i servers.
  ghost function TotalOf(ss: seq<Server>, i: nat): int
    requires i <= |ss|
  {
    Sum(Gains(ss)[..i])
  }

  lemma {:induction false} TotalNext(ss: seq<Server>, i: nat)
    requires i < |ss|
    ensures TotalOf(ss, i + 1) == TotalOf(ss, i) + Gain(ss[i])
  {
    assert Gains(ss)[..i + 1][..i] == Gains(ss)[..i];
  }

  ghost predicate BestSoFar(ss: seq<Server>, i: nat, best: int, bestWeight: int) {
    && i <= |ss| && best == Highest(RaiseAll(ss), i)
    && (best >= 0 ==> bestWeight == RaiseAll(ss)[best].current)
  }

  lemma {:induction false} NextBest(ss: seq<Server>, i: nat, best: int, bestWeight: int)
    requires i < |ss| && BestSoFar(ss, i, best, bestWeight)
    ensures var c := ss[i].current + ss[i].weight;
            if ss[i].healthy && (best < 0 || c > bestWeight) then BestSoFar(ss, i + 1, i, c)
            else BestSoFar(ss, i + 1, best, bestWeight)
  {
  }

  class Balancer {
    var servers: seq<Server>
    var ring: seq<Point>
    var rrIndex: nat
    const algorithm: Algorithm
    const hash: Hasher             // of a server's points
    const keyHash: string -> nat   // of keys

    // The ring of a consistent-hash balancer is the one built from its servers.
    ghost predicate Valid()
      reads this
    {
      && |servers| <= MAX_SERVERS
      && (algorithm == ConsistentHashing ==> ring == Build(Addresses(servers), hash, VIRTUAL_NODES, |servers|))
      && (algorithm != ConsistentHashing ==> ring == [])
    }

    constructor (algorithm: Algorithm, hash: Hasher, keyHash: string -> nat)
      ensures Valid() && servers == [] && this.algorithm == algorithm && this.hash == hash && this.keyHash == keyHash
    {
      this.algorithm, this.hash, this.keyHash := algorithm, hash, keyHash;
      servers, ring, rrIndex := [], [], 0;
    }

    method InsertPoint(p: Point)
      modifies this`ring
      ensures ring == Insert(old(ring), p)
    {
      var pos := 0;
      while pos < |ring| && ring[pos].hash < p.hash
        invariant 0 <= pos <= |ring| && FirstAtLeast(ring, p.hash, 0) == FirstAtLeast(ring, p.hash, pos)
      {
        pos := pos + 1;
      }
      ring := ring[..pos] + [p] + ring[pos..];
    }

    method AddServerPoints(i: nat, points: nat)
      requires i < |servers|
      modifies this`ring
      ensures ring == AddPoints(old(ring), servers[i].address, i, hash, points)
    {
      ghost var before := ring;
      var v := 0;
      while v < points
        invariant 0 <= v <= points && ring == AddPoints(before, servers[i].address, i, hash, v)
      {
        InsertPoint(Point(hash(servers[i].address, v), i));
        v := v + 1;
      }
    }

    method BuildRing(points: nat)
      modifies this`ring
      ensures ring == Build(Addresses(servers), hash, points, |servers|)
    {
      ring := [];
      var i := 0;
      while i < |servers|
        invariant 0 <= i <= |servers| && ring == Build(Addresses(servers), hash, points, i)
      {
        AddServerPoints(i, points);
        i := i + 1;
      }
    }

    method AddServer(address: string, weight: int) returns (r: int)
      requires Valid()
      modifies this
      ensures Valid()
      ensures |old(servers)| == MAX_SERVERS ==> r == -1 && servers == old(servers)
      ensures |old(servers)| < MAX_SERVERS ==>
                && r == |old(servers)| && rrIndex == old(rrIndex)
                && servers == old(servers) + [Server(address, if weight <= 0 then 1 else weight, 0, true)]
    {
      if |servers| >= MAX_SERVERS {
        return -1;
      }
      servers := servers + [Server(address, if weight <= 0 then 1 else weight, 0, true)];
      if algorithm == ConsistentHashing {
        BuildRing(VIRTUAL_NODES);
      }
      r := |servers| - 1;
    }

    method RemoveServer(address: string) returns (r: int)
      requires Valid()
      modifies this
      ensures Valid()
      ensures var i := IndexOf(old(servers), address, 0);
              if i == |old(servers)| then r == -1 && servers == old(servers)
              else r == 0 && servers == old(servers)[..i] + old(servers)[i + 1..]
    {
      var i := 0;
      while i < |servers|
        invariant 0 <= i <= |servers| && IndexOf(servers, address, 0) == IndexOf(servers, address, i)
      {
        if servers[i].address == address {
          servers := servers[..i] + servers[i + 1..];
          if algorithm == ConsistentHashing {
            BuildRing(VIRTUAL_NODES);
          }
          return 0;
        }
        i := i + 1;
      }
      r := -1;
    }

    method SelectWeighted() returns (r: int)
      modifies this`servers
      ensures servers == Select(old(servers)) && r == Chosen(old(servers))
    {
      var total;
      total, r := RaiseAndPick();
      if r >= 0 {
        servers := servers[r := servers[r].(current := servers[r].current - total)];
      }
    }

    method RaiseAndPick() returns (total: int, best: int)
      modifies this`servers
      ensures servers == RaiseAll(old(servers)) && total == Total(old(servers)) && best == Chosen(old(servers))
    {
      ghost var before := servers;
      var bestWeight := -1;
      total, best := 0, -1;
      var i := 0;
      while i < |servers|
        invariant 0 <= i <= |before| == |servers| && total == TotalOf(before, i)
        invariant forall k :: 0 <= k < |before| ==> servers[k] == if k < i then Raise(before[k]) else before[k]
        invariant BestSoFar(before, i, best, bestWeight)
      {
        TotalNext(before, i);
        NextBest(before, i, best, bestWeight);
        if servers[i].healthy {
          var s := servers[i].(current := servers[i].current + servers[i].weight);
          servers := servers[i := s];
          total := total + s.weight;
          if best < 0 || s.current > bestWeight {
            best, bestWeight := i, s.current;
          }
        }
        i := i + 1;
      }
      assert servers == RaiseAll(before) && Gains(before)[..i] == Gains(before);
    }

    method SelectRoundRobin() returns (r: int)
      modifies this`rrIndex
      ensures (r, rrIndex) == RoundRobin(servers, old(rrIndex), |servers|)
    {
      var tries := 0;
      while tries < |servers|
        invariant 0 <= tries <= |servers|
        invariant RoundRobin(servers, old(rrIndex), |servers|) == RoundRobin(servers, rrIndex, |servers| - tries)
      {
        var i := rrIndex % |servers|;
        rrIndex := rrIndex + 1;
        if servers[i].healthy {
          return i;
        }
        tries := tries + 1;
      }
      r := -1;
    }

    // Binary search agrees with the linear rule.
    method SearchRing(h: nat) returns (i: nat)
      requires ring != [] && Sorted(ring)
      ensures i < |ring| && ring[i].server == Owner(ring, h)
    {
      var lo, hi := 0, |ring| - 1;
      i := 0;
      while lo <= hi
        invariant 0 <= lo <= hi + 1 <= |ring|
        invariant forall k :: 0 <= k < lo ==> ring[k].hash < h
        invariant forall k :: hi < k < |ring| ==> ring[k].hash >= h
        invariant hi + 1 < |ring| ==> i == hi + 1
        invariant i < |ring|
        decreases hi - lo
      {
        var mid := lo + (hi - lo) / 2;
        if ring[mid].hash >= h {
          i, hi := mid, mid - 1;
        } else {
          lo := mid + 1;
        }
      }
      if lo >= |ring| {
        i := 0;
      }
      FirstIs(ring, h, lo);
    }

    // The balancer's answer for a key is the owner of the key's hash.
    method SelectConsistentHash(key: string) returns (r: int)
      requires Valid()
      modifies this`rrIndex
      ensures algorithm == ConsistentHashing && servers != [] ==>
                && ring != [] && r == Owner(ring, keyHash(key)) && 0 <= r < |servers| && rrIndex == old(rrIndex)
      ensures ring == [] ==> (r, rrIndex) == RoundRobin(servers, old(rrIndex), |servers|)
    {
      var h := keyHash(key);
      if algorithm == ConsistentHashing && |servers| > 0 {
        OwnersExist(Addresses(servers), hash, VIRTUAL_NODES, |servers|, h);
      }
      if |ring| == 0 {
        r := SelectRoundRobin();
      } else {
        BuildSorted(Addresses(servers), hash, VIRTUAL_NODES, |servers|);
        var i := SearchRing(h);
        r := ring[i].server;
      }
    }
  }
}
