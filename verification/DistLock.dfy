/**
 * Lease locks kept by independent lock managers, and the Redlock scheme that
 * takes the same lock at a majority of them.
 */
module DistLock {
  import opened KeyedTable
  import Quorum

  type Name = string

  const MAX_LOCKS := 64
  const WAIT_QUEUE_SIZE := 16
  const DEFAULT_LEASE_MS := 30000

  datatype State = Free | Acquired | Expired | Waiting

  datatype Lock = Lock(owner: Name, lease: int, at: int, version: nat, state: State)

  datatype Wait = Wait(owner: Name, since: int)

  datatype Node = Node(locks: map<Name, Lock>, waiting: seq<Wait>)

  datatype Reply = Reply(node: Node, ok: bool)

  // ---------- One manager ----------

  // Whether the resource has a lock or the table has room for one.
  predicate Available(n: Node, r: Name) { r in n.locks || |n.locks| < MAX_LOCKS }

  function Create(n: Node, r: Name): Node
    requires Available(n, r)
  {
    if r in n.locks then n else n.(locks := n.locks[r := Lock("", 0, 0, 0, Free)])
  }

  function Set(n: Node, r: Name, l: Lock): Node { n.(locks := n.locks[r := l]) }

  predicate InForce(l: Lock, now: int) { l.state == Acquired && l.at + l.lease > now }

  function Taken(l: Lock, o: Name, lease: int, now: int): Lock { Lock(o, lease, now, l.version + 1, Acquired) }

  function Acquire(n: Node, r: Name, o: Name, lease: int, now: int): Reply {
    if !Available(n, r) then Reply(n, false) else
    var n' := Create(n, r);
    if InForce(n'.locks[r], now) then
      Reply(if |n.waiting| < WAIT_QUEUE_SIZE then n'.(waiting := n.waiting + [Wait(o, now)]) else n', false)
    else
      Reply(Set(n', r, Taken(n'.locks[r], o, lease, now)), true)
  }

  predicate OwnedBy(n: Node, r: Name, o: Name) {
    r in n.locks && n.locks[r].state == Acquired && n.locks[r].owner == o
  }

  function Release(n: Node, r: Name, o: Name): Reply {
    if !Available(n, r) then Reply(n, false) else
    var n' := Create(n, r);
    if !OwnedBy(n', r, o) then Reply(n', false) else
    var n'' := Set(n', r, n'.locks[r].(state := Free, owner := "", lease := 0));
    Reply(if n.waiting == [] then n'' else n''.(waiting := n.waiting[1..]), true)
  }

  function Extended(l: Lock, extend: int, now: int): Lock { l.(lease := l.lease + extend, at := now) }

  function Renew(n: Node, r: Name, o: Name, extend: int, now: int): Reply {
    if !Available(n, r) then Reply(n, false) else
    var n' := Create(n, r);
    if !OwnedBy(n', r, o) then Reply(n', false) else
    Reply(Set(n', r, Extended(n'.locks[r], extend, now)), true)
  }

  function Upgraded(l: Lock, now: int): Lock { l.(version := l.version + 1, at := now) }

  function Upgrade(n: Node, r: Name, o: Name, now: int): Reply {
    if !Available(n, r) then Reply(n, false) else
    var n' := Create(n, r);
    if !OwnedBy(n', r, o) || exists w :: w in n.waiting && w.owner != o then Reply(n', false) else
    Reply(Set(n', r, Upgraded(n'.locks[r], now)), true)
  }

  function Lapse(l: Lock, now: int): Lock {
    if l.state == Acquired && l.at + l.lease <= now then l.(state := Expired) else l
  }

  function HandleExpiry(n: Node, now: int): Node {
    n.(locks := map r | r in n.locks :: Lapse(n.locks[r], now))
  }

  function ProcessWaiting(n: Node, r: Name, now: int): Reply {
    if n.waiting == [] || !Available(n, r) then Reply(n, false) else
    var n' := Create(n, r);
    if n'.locks[r].state != Waiting && n'.locks[r].state != Free then Reply(n', false) else
    var reply := Acquire(n', r, n.waiting[0].owner, DEFAULT_LEASE_MS, now);
    if reply.ok then Reply(reply.node.(waiting := reply.node.waiting[1..]), true) else reply
  }

  // ---------- Redlock ----------

  type Cluster = seq<Node>

  // The managers that grant the lock.
  ghost function Grants(c: Cluster, r: Name, o: Name, lease: int, now: int): set<nat> {
    set k: nat | k < |c| && Acquire(c[k], r, o, lease, now).ok
  }

  predicate Majority(votes: int, total: int, quorum: int) { votes >= quorum && votes > total / 2 }

  ghost predicate Granted(c: Cluster, quorum: int, r: Name, o: Name, lease: int, now: int) {
    Majority(|Grants(c, r, o, lease, now)|, |c|, quorum)
  }

  function ReleaseAll(c: Cluster, r: Name, o: Name): Cluster {
    seq(|c|, k requires 0 <= k < |c| => Release(c[k], r, o).node)
  }

  function AcquireAll(c: Cluster, r: Name, o: Name, lease: int, now: int): Cluster {
    seq(|c|, k requires 0 <= k < |c| => Acquire(c[k], r, o, lease, now).node)
  }

  ghost function RedlockAcquired(c: Cluster, quorum: int, r: Name, o: Name, lease: int, now: int): Cluster {
    var c' := AcquireAll(c, r, o, lease, now);
    if Granted(c, quorum, r, o, lease, now) then c' else ReleaseAll(c', r, o)
  }

  // ---------- Mutual exclusion ----------

  // The owner holds the lock at the manager at least until the given time.
  predicate Holds(n: Node, r: Name, o: Name, clock: int, until: int) {
    OwnedBy(n, r, o) && n.locks[r].at <= clock && n.locks[r].at + n.locks[r].lease >= until
  }

  datatype Action =
    | DoAcquire(node: nat, resource: Name, owner: Name, lease: int)
    | DoRelease(node: nat, resource: Name, owner: Name)
    | DoRenew(node: nat, resource: Name, owner: Name, extend: int)
    | DoUpgrade(node: nat, resource: Name, owner: Name)
    | DoExpiry(node: nat)
    | DoWaiting(node: nat, resource: Name)
    | DoRedlockAcquire(quorum: int, resource: Name, owner: Name, lease: int)
    | DoRedlockRelease(resource: Name, owner: Name)

  datatype Op = Op(now: int, action: Action)

  function OnNode(n: Node, a: Action, now: int): Node {
    match a
    case DoAcquire(_, r, o, lease) => Acquire(n, r, o, lease, now).node
    case DoRelease(_, r, o) => Release(n, r, o).node
    case DoRenew(_, r, o, extend) => Renew(n, r, o, extend, now).node
    case DoUpgrade(_, r, o) => Upgrade(n, r, o, now).node
    case DoExpiry(_) => HandleExpiry(n, now)
    case DoWaiting(_, r) => ProcessWaiting(n, r, now).node
    case _ => n
  }

  ghost function Step(c: Cluster, op: Op): Cluster {
    match op.action
    case DoRedlockAcquire(quorum, r, o, lease) => RedlockAcquired(c, quorum, r, o, lease, op.now)
    case DoRedlockRelease(r, o) => ReleaseAll(c, r, o)
    case a => if a.node < |c| then c[a.node := OnNode(c[a.node], a, op.now)] else c
  }

  ghost function Exec(c: Cluster, ops: seq<Op>): Cluster {
    if ops == [] then c else Step(Exec(c, ops[..|ops| - 1]), ops[|ops| - 1])
  }

  // What the owner must not do to keep its lock: release it, take it again, or
  // shorten its lease. Everybody else may do anything.
  predicate Keeps(a: Action, r: Name, o: Name) {
    match a
    case DoRelease(_, x, p) => x != r || p != o
    case DoRenew(_, x, p, extend) => x != r || p != o || extend >= 0
    case DoRedlockAcquire(_, x, p, _) => x != r || p != o
    case DoRedlockRelease(x, p) => x != r || p != o
    case _ => true
  }

  // Operations in time order, from the clock on and before the lease runs out.
  ghost predicate InTime(ops: seq<Op>, clock: int, until: int) {
    && (forall i :: 0 <= i < |ops| ==> clock <= ops[i].now < until)
    && forall i, j :: 0 <= i < j < |ops| ==> ops[i].now <= ops[j].now
  }

  // The managers of a cluster at which the owner holds the lock.
  ghost function Holding(c: Cluster, r: Name, o: Name, clock: int, until: int): set<nat> {
    set k: nat | k < |c| && Holds(c[k], r, o, clock, until)
  }

  ghost predicate HoldsMajority(c: Cluster, r: Name, o: Name, clock: int, until: int) {
    |Holding(c, r, o, clock, until)| >= Quorum.Size(|c|)
  }

  // A held lock is denied to everybody.
  lemma {:induction false} HeldIsDenied(n: Node, r: Name, o: Name, clock: int, until: int, p: Name, lease: int,
                                        now: int)
    requires Holds(n, r, o, clock, until) && now < until
    ensures !Acquire(n, r, p, lease, now).ok
    ensures Holds(Acquire(n, r, p, lease, now).node, r, o, clock, until)
  {
  }

  lemma {:induction false} ReleaseKeeps(n: Node, r: Name, o: Name, clock: int, until: int, x: Name, p: Name)
    requires Holds(n, r, o, clock, until) && (x != r || p != o)
    ensures Holds(Release(n, x, p).node, r, o, clock, until)
  {
  }

  lemma {:induction false} AcquireKeeps(n: Node, r: Name, o: Name, clock: int, until: int, x: Name, p: Name,
                                        lease: int, now: int)
    requires Holds(n, r, o, clock, until) && now < until
    ensures Holds(Acquire(n, x, p, lease, now).node, r, o, clock, until)
  {
  }

  lemma {:induction false} OnNodeKeeps(n: Node, r: Name, o: Name, clock: int, until: int, a: Action, now: int)
    requires Holds(n, r, o, clock, until) && Keeps(a, r, o) && clock <= now < until
    ensures Holds(OnNode(n, a, now), r, o, now, until)
  {
    match a
    case DoAcquire(_, x, p, lease) => AcquireKeeps(n, r, o, clock, until, x, p, lease, now);
    case DoRelease(_, x, p) => ReleaseKeeps(n, r, o, clock, until, x, p);
    case DoWaiting(_, x) =>
      if ProcessWaiting(n, x, now).ok {
        AcquireKeeps(Create(n, x), r, o, clock, until, x, n.waiting[0].owner, DEFAULT_LEASE_MS, now);
      }
    case _ =>
  }

  lemma {:induction false} StepKeeps(c: Cluster, r: Name, o: Name, clock: int, until: int, op: Op)
    requires Keeps(op.action, r, o) && clock <= op.now < until
    ensures |Step(c, op)| == |c|
    ensures forall k :: 0 <= k < |c| && Holds(c[k], r, o, clock, until) ==> Holds(Step(c, op)[k], r, o, op.now, until)
  {
    forall k | 0 <= k < |c| && Holds(c[k], r, o, clock, until)
      ensures Holds(Step(c, op)[k], r, o, op.now, until)
    {
      match op.action
      case DoRedlockAcquire(quorum, x, p, lease) =>
        AcquireKeeps(c[k], r, o, clock, until, x, p, lease, op.now);
        ReleaseKeeps(Acquire(c[k], x, p, lease, op.now).node, r, o, clock, until, x, p);
      case DoRedlockRelease(x, p) => ReleaseKeeps(c[k], r, o, clock, until, x, p);
      case a => OnNodeKeeps(c[k], r, o, clock, until, a, op.now);
    }
  }

  // Whatever happens, the holder keeps every manager it holds.
  lemma {:induction false} RunKeeps(c: Cluster, r: Name, o: Name, clock: int, until: int, ops: seq<Op>)
    requires InTime(ops, clock, until) && forall i :: 0 <= i < |ops| ==> Keeps(ops[i].action, r, o)
    ensures |Exec(c, ops)| == |c|
    ensures var last := if ops == [] then clock else ops[|ops| - 1].now;
            Holding(c, r, o, clock, until) <= Holding(Exec(c, ops), r, o, last, until)
  {
    if ops != [] {
      var rest := ops[..|ops| - 1];
      RunKeeps(c, r, o, clock, until, rest);
      var last := if rest == [] then clock else rest[|rest| - 1].now;
      StepKeeps(Exec(c, rest), r, o, last, until, ops[|ops| - 1]);
    }
  }

  // A holder of a majority excludes every other majority.
  lemma {:induction false} MajorityExcludes(c: Cluster, r: Name, o: Name, clock: int, until: int, quorum: int,
                                            p: Name, lease: int, now: int)
    requires HoldsMajority(c, r, o, clock, until) && now < until
    ensures !Granted(c, quorum, r, p, lease, now)
  {
    var held, won := Holding(c, r, o, clock, until), Grants(c, r, p, lease, now);
    if |won| > |c| / 2 {
      Quorum.Intersection(|c|, held, won);
      var k :| k in held && k in won;
      HeldIsDenied(c[k], r, o, clock, until, p, lease, now);
    }
  }

  // A successful acquire holds the lock at a majority until the lease runs out.
  lemma {:induction false} AcquiredHolds(c: Cluster, quorum: int, r: Name, o: Name, lease: int, now: int)
    requires Granted(c, quorum, r, o, lease, now)
    ensures HoldsMajority(RedlockAcquired(c, quorum, r, o, lease, now), r, o, now, now + lease)
  {
    var c', won := RedlockAcquired(c, quorum, r, o, lease, now), Grants(c, r, o, lease, now);
    var held := Holding(c', r, o, now, now + lease);
    assert won <= held;
    SubsetCount(won, held);
  }

  lemma {:induction false} SubsetCount(a: set<nat>, b: set<nat>)
    requires a <= b
    ensures |a| <= |b|
  {
    assert |b| == |a| + |b - a|;
  }

  // Mutual exclusion: after owner o took the lock at time t with a lease, every
  // attempt of anybody before t + lease fails, whatever happened in between, as
  // long as o does not release the lock, retry, or shorten its lease.
  lemma {:induction false} RedlockExclusion(c: Cluster, quorum: int, r: Name, o: Name, lease: int, t: int, ops: seq<Op>,
                         quorum': int, p: Name, lease': int, now: int)
    requires Granted(c, quorum, r, o, lease, t)
    requires InTime(ops, t, t + lease) && forall i :: 0 <= i < |ops| ==> Keeps(ops[i].action, r, o)
    requires now < t + lease
    ensures !Granted(Exec(RedlockAcquired(c, quorum, r, o, lease, t), ops), quorum', r, p, lease', now)
  {
    var c' := RedlockAcquired(c, quorum, r, o, lease, t);
    AcquiredHolds(c, quorum, r, o, lease, t);
    RunKeeps(c', r, o, t, t + lease, ops);
    var last := if ops == [] then t else ops[|ops| - 1].now;
    SubsetCount(Holding(c', r, o, t, t + lease), Holding(Exec(c', ops), r, o, last, t + lease));
    MajorityExcludes(Exec(c', ops), r, o, last, t + lease, quorum', p, lease', now);
  }

  // Why a retry is excluded: the holder's own second attempt is denied by the
  // locks it holds, and the failed attempt then gives all of them back.
  lemma {:induction false} RetryLosesLock(c: Cluster, r: Name, o: Name, clock: int, until: int, quorum: int,
                                          lease: int, now: int)
    requires HoldsMajority(c, r, o, clock, until) && now < until
    ensures !Granted(c, quorum, r, o, lease, now)
    ensures forall k :: 0 <= k < |c| ==> !OwnedBy(RedlockAcquired(c, quorum, r, o, lease, now)[k], r, o)
  {
    MajorityExcludes(c, r, o, clock, until, quorum, o, lease, now);
  }

  // ---------- What is granted ----------

  // Somebody holds the lock beyond the given time.
  ghost predicate Held(n: Node, r: Name, now: int) {
    exists o, clock, until :: until > now && Holds(n, r, o, clock, until)
  }

  lemma {:induction false} HeldMeaning(n: Node, r: Name, now: int)
    ensures Held(n, r, now) <==> r in n.locks && n.locks[r].state == Acquired && n.locks[r].at + n.locks[r].lease > now
  {
    if r in n.locks && n.locks[r].state == Acquired && n.locks[r].at + n.locks[r].lease > now {
      assert Holds(n, r, n.locks[r].owner, n.locks[r].at, n.locks[r].at + n.locks[r].lease);
    }
  }

  // A manager grants a lock exactly when it has or can make a record for it and nobody
  // holds it; then the caller holds it for its lease. Otherwise the caller waits, if
  // there is room in the queue, and no lock changes hands.
  lemma {:induction false} GrantExactly(n: Node, r: Name, o: Name, lease: int, now: int)
    ensures var reply := Acquire(n, r, o, lease, now);
            && (reply.ok <==> Available(n, r) && !Held(n, r, now))
            && (reply.ok ==> Holds(reply.node, r, o, now, now + lease) && reply.node.waiting == n.waiting)
            && (!reply.ok && Available(n, r) && |n.waiting| < WAIT_QUEUE_SIZE ==>
                  reply.node.waiting == n.waiting + [Wait(o, now)])
            && (!reply.ok ==> forall x, p :: OwnedBy(reply.node, x, p) <==> OwnedBy(n, x, p))
  {
    HeldMeaning(n, r, now);
  }

  // The owner, and nobody else, can extend, restart or give up a lease.
  lemma {:induction false} OwnerExactly(n: Node, r: Name, o: Name, extend: int, now: int)
    ensures Renew(n, r, o, extend, now).ok <==> OwnedBy(n, r, o)
    ensures Upgrade(n, r, o, now).ok <==> OwnedBy(n, r, o) && forall w <- n.waiting :: w.owner == o
    ensures Release(n, r, o).ok <==> OwnedBy(n, r, o)
    ensures OwnedBy(n, r, o) ==>
              && Holds(Renew(n, r, o, extend, now).node, r, o, now, now + n.locks[r].lease + extend)
              && (Upgrade(n, r, o, now).ok ==> Holds(Upgrade(n, r, o, now).node, r, o, now, now + n.locks[r].lease))
              && !Held(Release(n, r, o).node, r, now)
              && (if n.waiting == [] then [] else [n.waiting[0]]) + Release(n, r, o).node.waiting == n.waiting
  {
    if OwnedBy(n, r, o) {
      HeldMeaning(Release(n, r, o).node, r, now);
    }
  }

  // A waiter is served exactly when there is one and the lock is free or unknown with
  // room for it; then the first waiter holds it for the default lease and leaves the queue.
  lemma {:induction false} WaiterServedExactly(n: Node, r: Name, now: int)
    ensures var reply := ProcessWaiting(n, r, now);
            && (reply.ok <==> n.waiting != [] && Available(n, r) &&
                              (r in n.locks ==> n.locks[r].state == Free || n.locks[r].state == Waiting))
            && (reply.ok ==> reply.node.waiting == n.waiting[1..] &&
                             Holds(reply.node, r, n.waiting[0].owner, now, now + DEFAULT_LEASE_MS))
  {
    if n.waiting != [] && Available(n, r) {
      GrantExactly(Create(n, r), r, n.waiting[0].owner, DEFAULT_LEASE_MS, now);
      HeldMeaning(Create(n, r), r, now);
    }
  }

  // After expiries are handled a lock is still owned exactly when its lease still runs.
  lemma {:induction false} ExpiryExactly(n: Node, now: int, r: Name, o: Name)
    ensures OwnedBy(HandleExpiry(n, now), r, o) <==> OwnedBy(n, r, o) && n.locks[r].at + n.locks[r].lease > now
    ensures Held(HandleExpiry(n, now), r, now) <==> Held(n, r, now)
  {
    HeldMeaning(n, r, now);
    HeldMeaning(HandleExpiry(n, now), r, now);
  }

  // The managers that can take the lock and at which nobody holds it.
  ghost function Open(c: Cluster, r: Name, now: int): set<nat> {
    set k: nat | k < |c| && Available(c[k], r) && !Held(c[k], r, now)
  }

  // Redlock succeeds exactly when a majority, and at least the quorum, is open; then
  // the caller holds all of these, and otherwise it owns the lock nowhere.
  lemma {:induction false} RedlockExactly(c: Cluster, quorum: int, r: Name, o: Name, lease: int, now: int)
    ensures var open, c' := Open(c, r, now), RedlockAcquired(c, quorum, r, o, lease, now);
            && |c'| == |c|
            && (Granted(c, quorum, r, o, lease, now) <==> |open| >= quorum && 2 * |open| > |c|)
            && (Granted(c, quorum, r, o, lease, now) ==> forall k <- open :: Holds(c'[k], r, o, now, now + lease))
            && (!Granted(c, quorum, r, o, lease, now) ==> forall k :: 0 <= k < |c| ==> !OwnedBy(c'[k], r, o))
  {
    var won := Grants(c, r, o, lease, now);
    forall k: nat ensures k in won <==> k in Open(c, r, now) {
      if k < |c| {
        GrantExactly(c[k], r, o, lease, now);
      }
    }
    assert won == Open(c, r, now);
    forall k | k in won ensures Holds(Acquire(c[k], r, o, lease, now).node, r, o, now, now + lease) {
      GrantExactly(c[k], r, o, lease, now);
    }
  }

  lemma {:induction false} AllOpen(c: Cluster, r: Name, now: int)
    requires forall k :: 0 <= k < |c| ==> Available(c[k], r) && !Held(c[k], r, now)
    ensures |Open(c, r, now)| == |c|
  {
    CountAll(|c|, Open(c, r, now));
  }

  lemma {:induction false} CountAll(n: nat, s: set<nat>)
    requires forall k: nat :: k in s <==> k < n
    ensures |s| == n
  {
    if n == 0 {
      assert s == {};
    } else {
      CountAll(n - 1, s - {n - 1});
    }
  }

  // After the only owner has released the lock everywhere, anybody can take it.
  lemma {:induction false} ReleaseFrees(c: Cluster, quorum: int, r: Name, o: Name, p: Name, lease: int, now: int)
    requires |c| > 0 && quorum <= |c| && forall k :: 0 <= k < |c| ==> Available(c[k], r)
    requires forall k, x :: 0 <= k < |c| && OwnedBy(c[k], r, x) ==> x == o
    ensures Granted(ReleaseAll(c, r, o), quorum, r, p, lease, now)
  {
    var c' := ReleaseAll(c, r, o);
    forall k | 0 <= k < |c'| ensures Available(c'[k], r) && !Held(c'[k], r, now) {
      HeldMeaning(c'[k], r, now);
      assert r in c[k].locks && c[k].locks[r].state == Acquired ==> OwnedBy(c[k], r, c[k].locks[r].owner);
    }
    AllOpen(c', r, now);
    RedlockExactly(c', quorum, r, p, lease, now);
  }

  // Once every lease has run out anybody can take the lock.
  lemma {:induction false} LapseFrees(c: Cluster, quorum: int, r: Name, p: Name, lease: int, now: int)
    requires |c| > 0 && quorum <= |c| && forall k :: 0 <= k < |c| ==> Available(c[k], r)
    requires forall k :: 0 <= k < |c| && r in c[k].locks ==> c[k].locks[r].at + c[k].locks[r].lease <= now
    ensures Granted(c, quorum, r, p, lease, now)
  {
    forall k | 0 <= k < |c| ensures Available(c[k], r) && !Held(c[k], r, now) {
      HeldMeaning(c[k], r, now);
    }
    AllOpen(c, r, now);
    RedlockExactly(c, quorum, r, p, lease, now);
  }

  // ---------- The lock manager ----------

  class LockManager {
    var locks: Table<Name, Lock>
    var waiting: seq<Wait>

    ghost predicate Valid()
      reads this
    {
      Distinct(locks) && |locks| <= MAX_LOCKS && |waiting| <= WAIT_QUEUE_SIZE
    }

    ghost function View(): Node
      reads this
    {
      Node(AsMap(locks), waiting)
    }

    ghost predicate Shows(n: Node)
      reads this
    {
      Valid() && View() == n
    }

    constructor ()
      ensures Valid() && View() == Node(map[], [])
    {
      locks, waiting := [], [];
    }

    method FindOrCreate(r: Name) returns (i: int)
      requires Valid()
      modifies this
      ensures Valid() && (i < 0 <==> !Available(old(View()), r)) && waiting == old(waiting)
      ensures i < 0 ==> View() == old(View())
      ensures i >= 0 ==> View() == Create(old(View()), r) && i == Find(locks, r) && i < |locks|
      ensures i >= 0 ==> r in View().locks && locks[i].value == View().locks[r]
    {
      i := FindIndex(locks, r);
      AsMapSize(locks);
      if i >= 0 {
        return;
      }
      if |locks| >= MAX_LOCKS {
        return -1;
      }
      PutAsMap(locks, r, Lock("", 0, 0, 0, Free));
      i := |locks|;
      locks := locks + [Entry(r, Lock("", 0, 0, 0, Free))];
      FindUnique(locks, r, i);
    }

    method SetLock(r: Name, i: nat, l: Lock)
      requires Valid() && i == Find(locks, r)
      modifies this`locks
      ensures Valid() && View() == Set(old(View()), r, l)
    {
      PutAsMap(locks, r, l);
      locks := locks[i := Entry(r, l)];
    }

    method AcquireLock(r: Name, o: Name, lease: int, now: int) returns (ok: bool)
      requires Valid()
      modifies this
      ensures Valid() && View() == Acquire(old(View()), r, o, lease, now).node
      ensures ok == Acquire(old(View()), r, o, lease, now).ok
    {
      ghost var n0 := View();
      var i := FindOrCreate(r);
      if i < 0 {
        return false;
      }
      ghost var n := View();
      assert n == Create(n0, r);
      var l := locks[i].value;
      assert l == n.locks[r];
      if l.state == Acquired && l.at + l.lease > now {
        if |waiting| < WAIT_QUEUE_SIZE {
          waiting := waiting + [Wait(o, now)];
        }
        return false;
      }
      SetLock(r, i, Taken(l, o, lease, now));
      assert View() == Set(n, r, Taken(l, o, lease, now));
      return true;
    }

    method ReleaseLock(r: Name, o: Name) returns (ok: bool)
      requires Valid()
      modifies this
      ensures Valid() && View() == Release(old(View()), r, o).node && ok == Release(old(View()), r, o).ok
    {
      ghost var n0 := View();
      var i := FindOrCreate(r);
      if i < 0 {
        return false;
      }
      ghost var n := View();
      assert n == Create(n0, r);
      var l := locks[i].value;
      assert l == n.locks[r];
      if l.state != Acquired || l.owner != o {
        return false;
      }
      SetLock(r, i, l.(state := Free, owner := "", lease := 0));
      assert View() == Set(n, r, l.(state := Free, owner := "", lease := 0));
      if |waiting| > 0 {
        waiting := waiting[1..];
      }
      return true;
    }

    method RenewLease(r: Name, o: Name, extend: int, now: int) returns (ok: bool)
      requires Valid()
      modifies this
      ensures Valid() && View() == Renew(old(View()), r, o, extend, now).node
      ensures ok == Renew(old(View()), r, o, extend, now).ok
    {
      ghost var n0 := View();
      var i := FindOrCreate(r);
      if i < 0 {
        return false;
      }
      ghost var n := View();
      assert n == Create(n0, r);
      var l := locks[i].value;
      assert l == n.locks[r];
      if l.state != Acquired || l.owner != o {
        return false;
      }
      SetLock(r, i, Extended(l, extend, now));
      assert View() == Set(n, r, Extended(l, extend, now));
      return true;
    }

    method TryUpgrade(r: Name, o: Name, now: int) returns (ok: bool)
      requires Valid()
      modifies this
      ensures Valid() && View() == Upgrade(old(View()), r, o, now).node && ok == Upgrade(old(View()), r, o, now).ok
    {
      ghost var n0 := View();
      var i := FindOrCreate(r);
      if i < 0 {
        return false;
      }
      ghost var n := View();
      assert n == Create(n0, r);
      var l := locks[i].value;
      assert l == n.locks[r];
      if l.state != Acquired || l.owner != o {
        return false;
      }
      var alone := NoOtherWaiter(o);
      if !alone {
        return false;
      }
      SetLock(r, i, Upgraded(l, now));
      assert View() == Set(n, r, Upgraded(l, now));
      return true;
    }

    method NoOtherWaiter(o: Name) returns (alone: bool)
      ensures alone <==> !exists w :: w in waiting && w.owner != o
    {
      var k := 0;
      while k < |waiting|
        invariant 0 <= k <= |waiting| && forall j :: 0 <= j < k ==> waiting[j].owner == o
      {
        if waiting[k].owner != o {
          return false;
        }
        k := k + 1;
      }
      return true;
    }

    method HandleExpiries(now: int) returns (expired: nat)
      requires Valid()
      modifies this
      ensures Valid() && View() == HandleExpiry(old(View()), now)
      ensures expired == LapsedCount(old(locks), now, |old(locks)|)
    {
      ghost var was := locks;
      expired := 0;
      var i := 0;
      while i < |locks|
        invariant 0 <= i <= |locks| == |was| && waiting == old(waiting) && expired == LapsedCount(was, now, i)
        invariant forall k :: 0 <= k < i ==> locks[k] == Entry(was[k].key, Lapse(was[k].value, now))
        invariant forall k :: i <= k < |was| ==> locks[k] == was[k]
      {
        var l := locks[i].value;
        if l.state == Acquired && l.at + l.lease <= now {
          locks := locks[i := Entry(locks[i].key, l.(state := Expired))];
          expired := expired + 1;
        }
        i := i + 1;
      }
      LapsedAsMap(was, locks, now);
    }

    method ProcessWaitQueue(r: Name, now: int) returns (ok: bool)
      requires Valid()
      modifies this
      ensures Valid() && View() == ProcessWaiting(old(View()), r, now).node
      ensures ok == ProcessWaiting(old(View()), r, now).ok
    {
      if |waiting| == 0 {
        return false;
      }
      var i := FindOrCreate(r);
      if i < 0 {
        return false;
      }
      if locks[i].value.state != Waiting && locks[i].value.state != Free {
        return false;
      }
      ok := AcquireLock(r, waiting[0].owner, DEFAULT_LEASE_MS, now);
      if ok {
        waiting := waiting[1..];
      }
    }
  }

  // How many of the first k locks expire.
  function LapsedCount(t: Table<Name, Lock>, now: int, k: nat): nat
    requires k <= |t|
  {
    if k == 0 then 0 else
    LapsedCount(t, now, k - 1) + if Lapse(t[k - 1].value, now) != t[k - 1].value then 1 else 0
  }

  lemma {:induction false} LapsedAsMap(t: Table<Name, Lock>, t': Table<Name, Lock>, now: int)
    requires |t'| == |t| && forall k :: 0 <= k < |t| ==> t'[k] == Entry(t[k].key, Lapse(t[k].value, now))
    ensures AsMap(t') == map r | r in AsMap(t) :: Lapse(AsMap(t)[r], now)
  {
    forall r ensures Find(t', r) == Find(t, r) {
      if Find(t, r) >= 0 { FindUnique(t', r, Find(t, r)); }
    }
    assert (set i | 0 <= i < |t| :: t[i].key) == (set i | 0 <= i < |t'| :: t'[i].key) by {
      forall i | 0 <= i < |t| ensures t'[i].key == t[i].key {}
    }
  }

  // ---------- Redlock over managers ----------

  // Distinct managers in the given states.
  ghost predicate AllShow(nodes: seq<LockManager>, c: Cluster)
    reads nodes
  {
    && (forall i, j :: 0 <= i < j < |nodes| ==> nodes[i] != nodes[j])
    && |c| == |nodes| && forall i :: 0 <= i < |nodes| ==> nodes[i].Shows(c[i])
  }

  // The first k managers have been asked to release, or to acquire.
  ghost predicate ReleasedFirst(c: Cluster, v: Cluster, k: nat, r: Name, o: Name) {
    |v| == |c| && forall i :: 0 <= i < |c| ==> v[i] == if i < k then Release(c[i], r, o).node else c[i]
  }

  ghost predicate AcquiredFirst(c: Cluster, v: Cluster, k: nat, r: Name, o: Name, lease: int, now: int) {
    |v| == |c| && forall i :: 0 <= i < |c| ==> v[i] == if i < k then Acquire(c[i], r, o, lease, now).node else c[i]
  }

  lemma {:induction false} ReleaseNext(c: Cluster, v: Cluster, k: nat, r: Name, o: Name)
    requires k < |c| && ReleasedFirst(c, v, k, r, o)
    ensures v[k] == c[k] && ReleasedFirst(c, v[k := Release(v[k], r, o).node], k + 1, r, o)
  {
  }

  lemma {:induction false} AcquireNext(c: Cluster, v: Cluster, k: nat, r: Name, o: Name, lease: int, now: int)
    requires k < |c| && AcquiredFirst(c, v, k, r, o, lease, now)
    ensures v[k] == c[k] && AcquiredFirst(c, v[k := Acquire(v[k], r, o, lease, now).node], k + 1, r, o, lease, now)
  {
  }

  lemma {:induction false} ReleasedEverywhere(c: Cluster, v: Cluster, r: Name, o: Name)
    requires ReleasedFirst(c, v, |c|, r, o)
    ensures v == ReleaseAll(c, r, o)
  {
  }

  lemma {:induction false} AcquiredEverywhere(c: Cluster, v: Cluster, r: Name, o: Name, lease: int, now: int)
    requires AcquiredFirst(c, v, |c|, r, o, lease, now)
    ensures v == AcquireAll(c, r, o, lease, now)
  {
  }

  method ReleaseAt(nodes: seq<LockManager>, i: nat, r: Name, o: Name, ghost v: Cluster) returns (ok: bool)
    requires AllShow(nodes, v) && i < |nodes|
    modifies nodes
    ensures AllShow(nodes, v[i := Release(v[i], r, o).node]) && ok == Release(v[i], r, o).ok
  {
    ok := nodes[i].ReleaseLock(r, o);
  }

  method AcquireAt(nodes: seq<LockManager>, i: nat, r: Name, o: Name, lease: int, now: int, ghost v: Cluster)
    returns (ok: bool)
    requires AllShow(nodes, v) && i < |nodes|
    modifies nodes
    ensures AllShow(nodes, v[i := Acquire(v[i], r, o, lease, now).node]) && ok == Acquire(v[i], r, o, lease, now).ok
  {
    ok := nodes[i].AcquireLock(r, o, lease, now);
  }

  method RedlockRelease(nodes: seq<LockManager>, r: Name, o: Name, ghost c: Cluster) returns (ok: bool)
    requires AllShow(nodes, c)
    modifies nodes
    ensures AllShow(nodes, ReleaseAll(c, r, o))
    ensures ok <==> exists k :: 0 <= k < |c| && Release(c[k], r, o).ok
  {
    var released, i := 0, 0;
    ghost var v, first: nat := c, 0;
    while i < |nodes|
      invariant 0 <= i <= |nodes| == |c| == |v| && AllShow(nodes, v) && released >= 0
      invariant ReleasedFirst(c, v, i, r, o)
      invariant forall k :: 0 <= k < i && Release(c[k], r, o).ok ==> released > 0
      invariant released > 0 ==> first < i && Release(c[first], r, o).ok
    {
      var done := ReleaseAt(nodes, i, r, o, v);
      ReleaseNext(c, v, i, r, o);
      v := v[i := Release(v[i], r, o).node];
      if done {
        released, first := released + 1, i;
      }
      i := i + 1;
    }
    ReleasedEverywhere(c, v, r, o);
    ok := released > 0;
  }

  method AcquireEverywhere(nodes: seq<LockManager>, r: Name, o: Name, lease: int, now: int, ghost c: Cluster)
    returns (acquired: nat)
    requires AllShow(nodes, c)
    modifies nodes
    ensures AllShow(nodes, AcquireAll(c, r, o, lease, now))
    ensures acquired == |Grants(c, r, o, lease, now)|
  {
    acquired := 0;
    var i := 0;
    ghost var v, won: set<nat> := c, {};
    while i < |nodes|
      invariant 0 <= i <= |nodes| == |c| == |v| && AllShow(nodes, v)
      invariant AcquiredFirst(c, v, i, r, o, lease, now)
      invariant acquired == |won| && forall k :: k in won <==> 0 <= k < i && Acquire(c[k], r, o, lease, now).ok
    {
      var done := AcquireAt(nodes, i, r, o, lease, now, v);
      AcquireNext(c, v, i, r, o, lease, now);
      v := v[i := Acquire(v[i], r, o, lease, now).node];
      if done {
        acquired, won := acquired + 1, won + {i};
      }
      i := i + 1;
    }
    AcquiredEverywhere(c, v, r, o, lease, now);
    assert won == Grants(c, r, o, lease, now);
  }

  method RedlockAcquire(nodes: seq<LockManager>, quorum: int, r: Name, o: Name, lease: int, now: int, ghost c: Cluster)
    returns (ok: bool)
    requires AllShow(nodes, c)
    modifies nodes
    ensures AllShow(nodes, RedlockAcquired(c, quorum, r, o, lease, now))
    ensures ok == Granted(c, quorum, r, o, lease, now)
  {
    var acquired := AcquireEverywhere(nodes, r, o, lease, now, c);
    ok := acquired >= quorum && acquired > |nodes| / 2;
    if !ok {
      var _ := RedlockRelease(nodes, r, o, AcquireAll(c, r, o, lease, now));
    }
  }
}
