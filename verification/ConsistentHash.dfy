/**
 * The consistent-hash ring: every server owns a fixed number of points, kept
 * sorted by hash, and a key belongs to the first point at or after its hash.
 */
module ConsistentHash {

  datatype Point = Point(hash: nat, server: nat)

  type Ring = seq<Point>

  // Where the v-th point of an address lies; any function will do.
  type Hasher = (string, nat) -> nat

  // ---------- Building the ring ----------

  ghost predicate Sorted(ring: Ring) {
    forall i, j :: 0 <= i < j < |ring| ==> ring[i].hash <= ring[j].hash
  }

  // The first position from i on whose hash is at least h, or the end.
  function FirstAtLeast(ring: Ring, h: nat, i: nat): (r: nat)
    requires i <= |ring|
    ensures i <= r <= |ring| && (r < |ring| ==> ring[r].hash >= h)
    ensures forall k :: i <= k < r ==> ring[k].hash < h
    decreases |ring| - i
  {
    if i == |ring| || ring[i].hash >= h then i else FirstAtLeast(ring, h, i + 1)
  }

  // A new point goes before the points of equal hash.
  function Insert(ring: Ring, p: Point): Ring {
    var at := FirstAtLeast(ring, p.hash, 0);
    ring[..at] + [p] + ring[at..]
  }

  function AddPoints(ring: Ring, address: string, server: nat, hash: Hasher, v: nat): Ring {
    if v == 0 then ring else
    Insert(AddPoints(ring, address, server, hash, v - 1), Point(hash(address, v - 1), server))
  }

  // The ring of the first n servers.
  function Build(addresses: seq<string>, hash: Hasher, points: nat, n: nat): Ring
    requires n <= |addresses|
  {
    if n == 0 then [] else
    AddPoints(Build(addresses, hash, points, n - 1), addresses[n - 1], n - 1, hash, points)
  }

  // The rule: the first point at or after the hash, else the first point.
  function Owner(ring: Ring, h: nat): nat
    requires ring != []
  {
    var i := FirstAtLeast(ring, h, 0);
    ring[if i < |ring| then i else 0].server
  }

  // ---------- What the ring is ----------

  // All points of all servers, in the order in which they are added.
  ghost function PointsOf(address: string, server: nat, hash: Hasher, v: nat): Ring {
    seq(v, i requires 0 <= i => Point(hash(address, i), server))
  }

  ghost function AllPoints(addresses: seq<string>, hash: Hasher, points: nat, n: nat): Ring
    requires n <= |addresses|
  {
    if n == 0 then [] else
    AllPoints(addresses, hash, points, n - 1) + PointsOf(addresses[n - 1], n - 1, hash, points)
  }

  lemma {:induction false} InsertKeeps(ring: Ring, p: Point)
    ensures multiset(Insert(ring, p)) == multiset(ring) + multiset{p}
  {
    var at := FirstAtLeast(ring, p.hash, 0);
    assert ring == ring[..at] + ring[at..];
  }

  lemma {:induction false} AddPointsAdds(ring: Ring, address: string, server: nat, hash: Hasher, v: nat)
    ensures multiset(AddPoints(ring, address, server, hash, v)) ==
            multiset(ring) + multiset(PointsOf(address, server, hash, v))
  {
    if v == 0 {
      assert PointsOf(address, server, hash, 0) == [];
    } else {
      var p := Point(hash(address, v - 1), server);
      AddPointsAdds(ring, address, server, hash, v - 1);
      InsertKeeps(AddPoints(ring, address, server, hash, v - 1), p);
      assert PointsOf(address, server, hash, v) == PointsOf(address, server, hash, v - 1) + [p];
    }
  }

  // The ring holds every point of every server, as often as it occurs, and no others.
  lemma {:induction false} RingIsComplete(addresses: seq<string>, hash: Hasher, points: nat, n: nat, ring: Ring,
                                          all: Ring)
    requires n <= |addresses| && ring == Build(addresses, hash, points, n)
    requires all == AllPoints(addresses, hash, points, n)
    ensures multiset(ring) == multiset(all)
    decreases n
  {
    if n > 0 {
      var r, a := Build(addresses, hash, points, n - 1), AllPoints(addresses, hash, points, n - 1);
      RingIsComplete(addresses, hash, points, n - 1, r, a);
      BuildNext(addresses, hash, points, n - 1);
      OneMoreServer(r, a, addresses[n - 1], n - 1, hash, points, ring, all);
    }
  }

  lemma {:induction false} OneMoreServer(r: Ring, a: Ring, address: string, server: nat, hash: Hasher, points: nat,
                                         ring: Ring, all: Ring)
    requires multiset(r) == multiset(a) && ring == AddPoints(r, address, server, hash, points)
    requires all == a + PointsOf(address, server, hash, points)
    ensures multiset(ring) == multiset(all)
  {
    AddPointsAdds(r, address, server, hash, points);
  }

  lemma {:induction false} HasAllPoints(addresses: seq<string>, hash: Hasher, points: nat, n: nat, i: nat, v: nat)
    requires i < n <= |addresses| && v < points
    ensures Point(hash(addresses[i], v), i) in Build(addresses, hash, points, n)
  {
    var ring, all := Build(addresses, hash, points, n), AllPoints(addresses, hash, points, n);
    RingIsComplete(addresses, hash, points, n, ring, all);
    InAllPoints(addresses, hash, points, n, i, v);
    var p := Point(hash(addresses[i], v), i);
    assert p in multiset(all) && p in multiset(ring);
  }

  lemma {:induction false} InAllPoints(addresses: seq<string>, hash: Hasher, points: nat, n: nat, i: nat, v: nat)
    requires i < n <= |addresses| && v < points
    ensures Point(hash(addresses[i], v), i) in AllPoints(addresses, hash, points, n)
  {
    if i == n - 1 {
      var last := PointsOf(addresses[n - 1], n - 1, hash, points);
      assert last[v] == Point(hash(addresses[i], v), i) && last[v] in last;
    } else {
      InAllPoints(addresses, hash, points, n - 1, i, v);
    }
  }

  // The owner of a hash has the nearest point at or after it, or, if there is none, the
  // lowest point of all.
  lemma {:induction false} OwnerIsNearest(ring: Ring, h: nat) returns (i: nat)
    requires ring != [] && Sorted(ring)
    ensures i < |ring| && Owner(ring, h) == ring[i].server
    ensures if exists j :: 0 <= j < |ring| && ring[j].hash >= h
            then ring[i].hash >= h && forall j :: 0 <= j < |ring| && ring[j].hash >= h ==> ring[i].hash <= ring[j].hash
            else forall j :: 0 <= j < |ring| ==> ring[i].hash <= ring[j].hash
    ensures forall j :: 0 <= j < i ==> ring[j].hash < ring[i].hash
  {
    var r := FirstAtLeast(ring, h, 0);
    i := if r < |ring| then r else 0;
  }

  // ---------- Taking a server out ----------

  function Without(addresses: seq<string>, i: nat): seq<string>
    requires i < |addresses|
  {
    addresses[..i] + addresses[i + 1..]
  }

  // A server's index once server i is gone.
  function Shift(j: nat, i: nat): nat { if j > i then j - 1 else j }

  // The ring without the points of server i.
  ghost function Drop(ring: Ring, i: nat): Ring { DropTo(ring, i, |ring|) }

  ghost function DropTo(ring: Ring, i: nat, k: nat): Ring
    requires k <= |ring|
  {
    if k == 0 then [] else DropTo(ring, i, k - 1) + DropPoint(ring[k - 1], i)
  }

  function DropPoint(p: Point, i: nat): Ring {
    if p.server == i then [] else [Moved(p, i)]
  }

  function Moved(p: Point, i: nat): Point { p.(server := Shift(p.server, i)) }

  lemma {:induction false} DropToConcat(a: Ring, b: Ring, i: nat, k: nat)
    requires k <= |b|
    ensures DropTo(a + b, i, |a| + k) == DropTo(a, i, |a|) + DropTo(b, i, k)
  {
    if k == 0 {
      DropToPrefix(a, b, i, |a|);
    } else {
      DropToConcat(a, b, i, k - 1);
      var x, y, z := DropTo(a, i, |a|), DropTo(b, i, k - 1), DropPoint(b[k - 1], i);
      assert DropTo(a + b, i, |a| + k) == (x + y) + z by { assert (a + b)[|a| + k - 1] == b[k - 1]; }
      assert (x + y) + z == x + (y + z);
    }
  }

  lemma {:induction false} DropToPrefix(a: Ring, b: Ring, i: nat, k: nat)
    requires k <= |a|
    ensures DropTo(a + b, i, k) == DropTo(a, i, k)
  {
    if k > 0 {
      DropToPrefix(a, b, i, k - 1);
    }
  }

  lemma {:induction false} DropConcat(a: Ring, b: Ring, i: nat)
    ensures Drop(a + b, i) == Drop(a, i) + Drop(b, i)
  {
    DropToConcat(a, b, i, |b|);
  }

  ghost predicate Below(ring: Ring, h: nat) { forall k :: 0 <= k < |ring| ==> ring[k].hash < h }

  ghost predicate AtLeast(ring: Ring, h: nat) { forall k :: 0 <= k < |ring| ==> ring[k].hash >= h }

  lemma {:induction false} DropToBounds(ring: Ring, i: nat, h: nat, k: nat)
    requires k <= |ring|
    ensures Below(ring, h) ==> Below(DropTo(ring, i, k), h)
    ensures AtLeast(ring, h) ==> AtLeast(DropTo(ring, i, k), h)
  {
    if k > 0 {
      DropToBounds(ring, i, h, k - 1);
    }
  }

  lemma {:induction false} DropBelow(ring: Ring, i: nat, h: nat)
    requires Below(ring, h)
    ensures Below(Drop(ring, i), h)
  {
    DropToBounds(ring, i, h, |ring|);
  }

  lemma {:induction false} DropAtLeast(ring: Ring, i: nat, h: nat)
    requires AtLeast(ring, h)
    ensures AtLeast(Drop(ring, i), h)
  {
    DropToBounds(ring, i, h, |ring|);
  }

  // Searching a sorted ring splits it below and from the hash.
  lemma {:induction false} SearchSplits(ring: Ring, h: nat)
    requires Sorted(ring)
    ensures var at := FirstAtLeast(ring, h, 0); Below(ring[..at], h) && AtLeast(ring[at..], h)
  {
  }

  // A ring split below and from a hash is searched and extended at the split.
  lemma {:induction false} SplitAt(a: Ring, b: Ring, h: nat)
    requires Below(a, h) && (b != [] ==> b[0].hash >= h)
    ensures FirstAtLeast(a + b, h, 0) == |a|
  {
    assert forall k :: 0 <= k < |a| ==> (a + b)[k] == a[k];
    assert b != [] ==> (a + b)[|a|] == b[0];
  }

  lemma {:induction false} InsertSplit(a: Ring, b: Ring, p: Point)
    requires Below(a, p.hash) && (b != [] ==> b[0].hash >= p.hash)
    ensures Insert(a + b, p) == a + [p] + b
  {
    SplitAt(a, b, p.hash);
    assert (a + b)[..|a|] == a && (a + b)[|a|..] == b;
  }

  lemma {:induction false} InsertSorted(ring: Ring, p: Point)
    requires Sorted(ring)
    ensures Sorted(Insert(ring, p)) && |Insert(ring, p)| == |ring| + 1
  {
  }

  lemma {:induction false} DropParts(a: Ring, p: Point, b: Ring, i: nat)
    ensures Drop(a + [p] + b, i) == Drop(a, i) + DropPoint(p, i) + Drop(b, i)
  {
    DropConcat(a + [p], b, i);
    DropToPrefix(a, [p], i, |a|);
  }

  // Dropping a server commutes with inserting points of the others.
  lemma {:induction false} DropInsert(ring: Ring, p: Point, i: nat)
    requires Sorted(ring)
    ensures Drop(Insert(ring, p), i) == if p.server == i then Drop(ring, i) else Insert(Drop(ring, i), Moved(p, i))
  {
    var at := FirstAtLeast(ring, p.hash, 0);
    var a, b := ring[..at], ring[at..];
    SearchSplits(ring, p.hash);
    assert a + b == ring && Insert(ring, p) == a + [p] + b;
    DropAround(a, p, b, i);
  }

  lemma {:induction false} DropAround(a: Ring, p: Point, b: Ring, i: nat)
    requires Below(a, p.hash) && AtLeast(b, p.hash)
    ensures Drop(a + [p] + b, i) == if p.server == i then Drop(a + b, i) else Insert(Drop(a + b, i), Moved(p, i))
  {
    var x, y := Drop(a, i), Drop(b, i);
    DropParts(a, p, b, i);
    DropConcat(a, b, i);
    DropBelow(a, i, p.hash);
    DropAtLeast(b, i, p.hash);
    if p.server == i {
      assert x + [] == x;
    } else {
      InsertSplit(x, y, Moved(p, i));
    }
  }

  lemma {:induction false} AddPointsSorted(ring: Ring, address: string, server: nat, hash: Hasher, v: nat)
    requires Sorted(ring)
    ensures Sorted(AddPoints(ring, address, server, hash, v))
    ensures |AddPoints(ring, address, server, hash, v)| == |ring| + v
  {
    if v > 0 {
      AddPointsSorted(ring, address, server, hash, v - 1);
      InsertSorted(AddPoints(ring, address, server, hash, v - 1), Point(hash(address, v - 1), server));
    }
  }

  lemma {:induction false} BuildSorted(addresses: seq<string>, hash: Hasher, points: nat, n: nat)
    requires n <= |addresses|
    ensures Sorted(Build(addresses, hash, points, n))
    ensures n > 0 && points > 0 ==> Build(addresses, hash, points, n) != []
  {
    if n > 0 {
      BuildSorted(addresses, hash, points, n - 1);
      AddPointsSorted(Build(addresses, hash, points, n - 1), addresses[n - 1], n - 1, hash, points);
    }
  }

  // What holds of the ring and is kept by each point holds after all of them.
  lemma {:induction false} EachPoint(P: (Ring, nat) -> bool, ring: Ring, address: string, server: nat, hash: Hasher,
                                     v: nat)
    requires P(ring, 0)
    requires forall x, j: nat :: P(x, j) ==> P(Insert(x, Point(hash(address, j), server)), j + 1)
    ensures P(AddPoints(ring, address, server, hash, v), v)
  {
    if v > 0 {
      EachPoint(P, ring, address, server, hash, v - 1);
    }
  }

  // The ring x is the given one with j more points, and so it is without server i.
  ghost predicate Dropped(ring: Ring, address: string, server: nat, hash: Hasher, i: nat, x: Ring, j: nat) {
    Sorted(x) && Drop(x, i) ==
                 if server == i then Drop(ring, i) else AddPoints(Drop(ring, i), address, Shift(server, i), hash, j)
  }

  lemma {:induction false} DroppedNext(ring: Ring, address: string, server: nat, hash: Hasher, i: nat, x: Ring, j: nat)
    requires Dropped(ring, address, server, hash, i, x, j)
    ensures Dropped(ring, address, server, hash, i, Insert(x, Point(hash(address, j), server)), j + 1)
  {
    InsertSorted(x, Point(hash(address, j), server));
    DropInsert(x, Point(hash(address, j), server), i);
  }

  lemma {:induction false} DropAddPoints(ring: Ring, address: string, server: nat, hash: Hasher, v: nat, i: nat)
    requires Sorted(ring)
    ensures Drop(AddPoints(ring, address, server, hash, v), i) ==
            if server == i then Drop(ring, i) else AddPoints(Drop(ring, i), address, Shift(server, i), hash, v)
  {
    var P := (x: Ring, j: nat) => Dropped(ring, address, server, hash, i, x, j);
    forall x, j: nat | P(x, j) ensures P(Insert(x, Point(hash(address, j), server)), j + 1) {
      DroppedNext(ring, address, server, hash, i, x, j);
    }
    EachPoint(P, ring, address, server, hash, v);
    assert P(AddPoints(ring, address, server, hash, v), v);
  }

  // Dropping from the ring of servers before i changes nothing.
  lemma {:induction false} DropAbsent(addresses: seq<string>, hash: Hasher, points: nat, n: nat, i: nat, ring: Ring)
    requires n <= i && n <= |addresses| && ring == Build(addresses, hash, points, n)
    ensures Drop(ring, i) == ring
    decreases n
  {
    if n == 0 {
      assert ring == [];
    } else {
      var before := Build(addresses, hash, points, n - 1);
      DropAbsent(addresses, hash, points, n - 1, i, before);
      BuildSorted(addresses, hash, points, n - 1);
      DropAddPoints(before, addresses[n - 1], n - 1, hash, points, i);
    }
  }

  lemma {:induction false} SamePrefix(a: seq<string>, b: seq<string>, hash: Hasher, points: nat, n: nat)
    requires n <= |a| && n <= |b| && a[..n] == b[..n]
    ensures Build(a, hash, points, n) == Build(b, hash, points, n)
  {
    if n > 0 {
      assert a[..n][n - 1] == b[..n][n - 1];
      assert a[..n - 1] == a[..n][..n - 1] && b[..n - 1] == b[..n][..n - 1];
      SamePrefix(a, b, hash, points, n - 1);
    }
  }

  ghost predicate Rebuilt(addresses: seq<string>, hash: Hasher, points: nat, n: nat, i: nat)
    requires i < n <= |addresses|
  {
    Build(Without(addresses, i), hash, points, n - 1) == Drop(Build(addresses, hash, points, n), i)
  }

  lemma {:induction false} RebuildLast(addresses: seq<string>, hash: Hasher, points: nat, i: nat)
    requires i < |addresses|
    ensures Rebuilt(addresses, hash, points, i + 1, i)
  {
    var rest := Without(addresses, i);
    var ring := Build(addresses, hash, points, i);
    BuildSorted(addresses, hash, points, i);
    DropAddPoints(ring, addresses[i], i, hash, points, i);
    DropAbsent(addresses, hash, points, i, i, ring);
    assert rest[..i] == addresses[..i];
    SamePrefix(rest, addresses, hash, points, i);
  }

  lemma {:induction false} RebuildMore(addresses: seq<string>, hash: Hasher, points: nat, n: nat, i: nat)
    requires i < n < |addresses| && Rebuilt(addresses, hash, points, n, i)
    ensures Rebuilt(addresses, hash, points, n + 1, i)
  {
    BuildSorted(addresses, hash, points, n);
    DropAddPoints(Build(addresses, hash, points, n), addresses[n], n, hash, points, i);
    BuildNext(Without(addresses, i), hash, points, n - 1);
    BuildNext(addresses, hash, points, n);
    assert Without(addresses, i)[n - 1] == addresses[n];
  }

  // Rebuilding without a server gives the ring without its points, ties included.
  lemma {:induction false} RebuildDrops(addresses: seq<string>, hash: Hasher, points: nat, n: nat, i: nat)
    requires i < n <= |addresses|
    ensures Rebuilt(addresses, hash, points, n, i)
  {
    if n == i + 1 {
      RebuildLast(addresses, hash, points, i);
    } else {
      RebuildDrops(addresses, hash, points, n - 1, i);
      RebuildMore(addresses, hash, points, n - 1, i);
    }
  }

  lemma {:induction false} BuildNext(addresses: seq<string>, hash: Hasher, points: nat, n: nat)
    requires n < |addresses|
    ensures Build(addresses, hash, points, n + 1) ==
            AddPoints(Build(addresses, hash, points, n), addresses[n], n, hash, points)
  {
  }

  // ---------- Minimal disruption ----------

  // A key whose owner stays keeps its owner.
  lemma {:induction false} DropOwner(ring: Ring, h: nat, i: nat)
    requires ring != [] && Owner(ring, h) != i
    ensures Drop(ring, i) != [] && Owner(Drop(ring, i), h) == Shift(Owner(ring, h), i)
  {
    var at := FirstAtLeast(ring, h, 0);
    if at < |ring| {
      assert Below(ring[..at], h);
      assert ring == ring[..at] + [ring[at]] + ring[at + 1..];
      DropFound(ring[..at], ring[at], ring[at + 1..], h, i);
    } else {
      assert ring == [] + [ring[0]] + ring[1..];
      DropParts([], ring[0], ring[1..], i);
      DropBelow(ring, i, h);
      NoneAtLeast(Drop(ring, i), h);
    }
  }

  lemma {:induction false} DropFound(a: Ring, p: Point, b: Ring, h: nat, i: nat)
    requires Below(a, h) && p.hash >= h && p.server != i
    ensures var ring := Drop(a + [p] + b, i); ring != [] && Owner(ring, h) == Shift(p.server, i)
  {
    DropParts(a, p, b, i);
    DropBelow(a, i, h);
    var rest := [Moved(p, i)] + Drop(b, i);
    assert Drop(a + [p] + b, i) == Drop(a, i) + rest;
    SplitAt(Drop(a, i), rest, h);
  }

  lemma {:induction false} NoneAtLeast(ring: Ring, h: nat)
    requires Below(ring, h)
    ensures FirstAtLeast(ring, h, 0) == |ring|
  {
  }

  // Removing a server moves only the keys it owned.
  lemma {:induction false} RemoveMovesOnlyItsKeys(addresses: seq<string>, hash: Hasher, points: nat, i: nat, h: nat)
    requires i < |addresses| && points > 0
    ensures var ring := Build(addresses, hash, points, |addresses|);
            var ring' := Build(Without(addresses, i), hash, points, |addresses| - 1);
            ring != [] && (Owner(ring, h) != i ==> ring' != [] && Owner(ring', h) == Shift(Owner(ring, h), i))
  {
    BuildSorted(addresses, hash, points, |addresses|);
    RebuildDrops(addresses, hash, points, |addresses|, i);
    if Owner(Build(addresses, hash, points, |addresses|), h) != i {
      DropOwner(Build(addresses, hash, points, |addresses|), h, i);
    }
  }

  // Adding a server moves keys only to it.
  lemma {:induction false} AddMovesOnlyToIt(addresses: seq<string>, hash: Hasher, points: nat, address: string, h: nat)
    requires points > 0
    ensures var n := |addresses|;
            var ring, ring' := Build(addresses, hash, points, n), Build(addresses + [address], hash, points, n + 1);
            ring' != [] && (Owner(ring', h) != n ==> ring != [] && Owner(ring', h) == Owner(ring, h))
  {
    var n, more := |addresses|, addresses + [address];
    assert Without(more, n) == addresses;
    BuildSorted(more, hash, points, n + 1);
    RebuildDrops(more, hash, points, n + 1, n);
    OwnersExist(more, hash, points, n + 1, h);
    if Owner(Build(more, hash, points, n + 1), h) != n {
      DropOwner(Build(more, hash, points, n + 1), h, n);
    }
  }

  ghost predicate Servers(ring: Ring, n: nat) { forall k :: 0 <= k < |ring| ==> ring[k].server < n }

  lemma {:induction false} AddPointsServers(ring: Ring, address: string, server: nat, hash: Hasher, v: nat, n: nat)
    requires Servers(ring, n) && server < n
    ensures Servers(AddPoints(ring, address, server, hash, v), n)
  {
    if v > 0 {
      AddPointsServers(ring, address, server, hash, v - 1, n);
    }
  }

  lemma {:induction false} BuildServers(addresses: seq<string>, hash: Hasher, points: nat, n: nat)
    requires n <= |addresses|
    ensures Servers(Build(addresses, hash, points, n), n)
  {
    if n > 0 {
      BuildServers(addresses, hash, points, n - 1);
      AddPointsServers(Build(addresses, hash, points, n - 1), addresses[n - 1], n - 1, hash, points, n);
    }
  }

  // The owner of a key is one of the servers.
  lemma {:induction false} OwnersExist(addresses: seq<string>, hash: Hasher, points: nat, n: nat, h: nat)
    requires 0 < n <= |addresses| && points > 0
    ensures var ring := Build(addresses, hash, points, n); ring != [] && Owner(ring, h) < n
  {
    BuildSorted(addresses, hash, points, n);
    BuildServers(addresses, hash, points, n);
  }
}
