/**
 * Multi-version concurrency control: version chains under a timestamp oracle.
 * Snapshot reads equal a replay of the commit history, never change once their
 * timestamp is allocated, and the first committer of a key wins.
 */
module Mvcc {
  import opened Options
  import opened KeyedTable

  type Key = string

  datatype RecStatus = Fresh | Durable

  // prev is the index of the next older version of the same key, or -1.
  datatype Version = Version(txn: int, commitTs: nat, value: string, status: RecStatus, prev: int)

  datatype TxnStatus = Active | Committed | Aborted

  datatype Txn = Txn(id: int, readTs: nat, commitTs: nat, status: TxnStatus, writeSet: Table<Key, string>)

  // heads maps a key to the index of its newest version, or -1.
  datatype Store = Store(heads: map<Key, int>, versions: seq<Version>, ts: nat, active: seq<int>)

  const MAX_KEYS := 128
  const MAX_VERSIONS := 1024
  const MAX_TXN := 64

  // Chains point from newer slots to older ones.
  predicate Linked(s: Store) {
    && (forall i :: 0 <= i < |s.versions| ==> -1 <= s.versions[i].prev < i)
    && (forall k :: k in s.heads ==> -1 <= s.heads[k] < |s.versions|)
  }

  // ---------- What each call does ----------

  function Head(s: Store, key: Key): int { if key in s.heads then s.heads[key] else -1 }

  predicate Sees(v: Version, readTs: nat) { v.status == Durable && v.commitTs <= readTs }

  // The walk from slot i towards older versions.
  function Walk(vs: seq<Version>, i: int, readTs: nat): (r: int)
    ensures -1 <= r < |vs|
    decreases i
  {
    if !(0 <= i < |vs|) then -1
    else if Sees(vs[i], readTs) then i
    else if vs[i].prev < i then Walk(vs, vs[i].prev, readTs)
    else -1
  }

  function Visible(s: Store, key: Key, readTs: nat): int
  {
    Walk(s.versions, Head(s, key), readTs)
  }

  function VisibleValue(s: Store, key: Key, readTs: nat): Option<string>
  {
    var i := Visible(s, key, readTs);
    if i < 0 then None else Some(s.versions[i].value)
  }

  function SnapshotRead(s: Store, t: Txn, key: Key): Option<string>
  {
    if Has(t.writeSet, key) then Some(Get(t.writeSet, key)) else VisibleValue(s, key, t.readTs)
  }

  function Begin(s: Store, id: int): (Store, Txn)
    requires |s.active| < MAX_TXN
  {
    (s.(ts := s.ts + 1, active := s.active + [id]), Txn(id, s.ts, 0, Active, []))
  }

  predicate CanWrite(t: Txn) { t.status == Active && |t.writeSet| < MAX_KEYS }

  function PrepareWrite(t: Txn, key: Key, value: string): Txn {
    if CanWrite(t) then t.(writeSet := Put(t.writeSet, key, value)) else t
  }

  predicate WriteSetValid(s: Store, t: Txn)
  {
    forall i :: 0 <= i < |t.writeSet| ==>
      var h := Head(s, t.writeSet[i].key); 0 <= h < |s.versions| ==> s.versions[h].commitTs <= t.readTs
  }

  function FindOrCreate(s: Store, key: Key): Store {
    if key in s.heads || |s.heads| >= MAX_KEYS then s else s.(heads := s.heads[key := -1])
  }

  // Link a new version in front of the key's chain, if there is room for it.
  function ChainAppend(s: Store, key: Key, v: Version): Store {
    var s := FindOrCreate(s, key);
    if key !in s.heads || |s.versions| >= MAX_VERSIONS then s
    else s.(versions := s.versions + [v.(prev := s.heads[key])], heads := s.heads[key := |s.versions|])
  }

  // Append one write and mark whatever then heads the chain as committed.
  function InstallOne(s: Store, key: Key, value: string, id: int, ts: nat): Store {
    var s := ChainAppend(s, key, Version(id, ts, value, Fresh, -1));
    var h := Head(s, key);
    if 0 <= h < |s.versions| then s.(versions := s.versions[h := s.versions[h].(status := Durable, commitTs := ts)])
    else s
  }

  function Install(s: Store, writes: Table<Key, string>, k: nat, id: int, ts: nat): Store
    requires k <= |writes|
  {
    if k == 0 then s
    else InstallOne(Install(s, writes, k - 1, id, ts), writes[k - 1].key, writes[k - 1].value, id, ts)
  }

  lemma {:induction false} InstallNext(s: Store, writes: Table<Key, string>, k: nat, id: int, ts: nat)
    requires k < |writes|
    ensures Install(s, writes, k + 1, id, ts) ==
            InstallOne(Install(s, writes, k, id, ts), writes[k].key, writes[k].value, id, ts)
  {
  }

  function RemoveFirst(xs: seq<int>, x: int): seq<int> {
    if xs == [] then [] else if xs[0] == x then xs[1..] else [xs[0]] + RemoveFirst(xs[1..], x)
  }

  function Abort(s: Store, t: Txn): (Store, Txn) {
    (s.(active := RemoveFirst(s.active, t.id)), t.(status := Aborted))
  }

  predicate Commits(s: Store, t: Txn)
  {
    t.status == Active && WriteSetValid(s, t)
  }

  function Commit(s: Store, t: Txn): (Store, Txn)
  {
    if t.status != Active then (s, t) else
    var s', t' := s.(ts := s.ts + 1), t.(commitTs := s.ts);
    if !WriteSetValid(s, t) then Abort(s', t') else
    var r := Install(s', t.writeSet, |t.writeSet|, t.id, s.ts);
    (r.(active := RemoveFirst(r.active, t.id)), t'.(status := Committed))
  }

  // ---------- Runs, with the commit history ----------

  datatype Entered = Entered(readTs: nat, commitTs: nat, writes: Table<Key, string>)

  datatype World = World(s: Store, txns: map<nat, Txn>, log: seq<Entered>)

  datatype Step =
    | DoBegin(h: nat, id: int)
    | DoWrite(h: nat, key: Key, value: string)
    | DoCommit(h: nat)
    | DoAbort(h: nat)

  function Init(): World { World(Store(map[], [], 1, []), map[], []) }

  function Next(w: World, step: Step): World {
    match step
    case DoBegin(h, id) =>
      if |w.s.active| >= MAX_TXN then w else
      var (s, t) := Begin(w.s, id);
      w.(s := s, txns := w.txns[h := t])
    case DoWrite(h, key, value) =>
      if h !in w.txns then w else w.(txns := w.txns[h := PrepareWrite(w.txns[h], key, value)])
    case DoCommit(h) =>
      if h !in w.txns then w else
      var t := w.txns[h];
      var (s, t') := Commit(w.s, t);
      World(s, w.txns[h := t'],
            if Commits(w.s, t) then w.log + [Entered(t.readTs, w.s.ts, t.writeSet)] else w.log)
    case DoAbort(h) =>
      if h !in w.txns then w else
      var (s, t) := Abort(w.s, w.txns[h]);
      w.(s := s, txns := w.txns[h := t])
  }

  // Every write of a commit lands: the fixed tables have room for it, or it repeats
  // what the key's chain says anyway.
  predicate Lands(s: Store, writes: Table<Key, string>, id: int, ts: nat) {
    forall i :: 0 <= i < |writes| ==> LandsAt(s, writes, i, id, ts)
  }

  predicate LandsAt(s: Store, writes: Table<Key, string>, i: nat, id: int, ts: nat)
    requires i < |writes|
  {
    HasRoom(Install(s, writes, i, id, ts), writes[i].key) || Repeats(s, writes[i].key, writes[i].value)
  }

  // The newest version of a key and the one before it, as far as they exist.
  function Tip(s: Store, key: Key): seq<Version> {
    var h := Head(s, key);
    if !(0 <= h < |s.versions|) then [] else
    var p := s.versions[h].prev;
    [s.versions[h]] + if 0 <= p < |s.versions| then [s.versions[p]] else []
  }

  predicate Repeats(s: Store, key: Key, value: string) {
    var tip := Tip(s, key); |tip| == 2 && tip[0].value == value == tip[1].value
  }

  predicate HasRoom(s: Store, key: Key) {
    (key in s.heads || |s.heads| < MAX_KEYS) && |s.versions| < MAX_VERSIONS
  }

  predicate StepFits(w: World, step: Step) {
    step.DoCommit? && step.h in w.txns && Commits(w.s, w.txns[step.h]) ==>
      Lands(Bumped(w.s), w.txns[step.h].writeSet, w.txns[step.h].id, w.s.ts)
  }

  function Bumped(s: Store): Store { s.(ts := s.ts + 1) }

  function Exec(w: World, steps: seq<Step>): World {
    if steps == [] then w else Next(Exec(w, steps[..|steps| - 1]), steps[|steps| - 1])
  }

  // Every commit of the run from w lands all its writes.
  predicate Fits(w: World, steps: seq<Step>) {
    steps != [] ==> Fits(w, steps[..|steps| - 1]) && StepFits(Exec(w, steps[..|steps| - 1]), steps[|steps| - 1])
  }

  // ---------- The reference: replaying the commit history ----------

  // The last write to the key among the commits up to a timestamp.
  function LastWrite(log: seq<Entered>, key: Key, ts: nat): Option<string> {
    if log == [] then None else
    var c := log[|log| - 1];
    if c.commitTs <= ts && Has(c.writes, key) then Some(Get(c.writes, key))
    else LastWrite(log[..|log| - 1], key, ts)
  }

  // ---------- The inductive invariant ----------

  // No version heads two chains, and what heads a chain is linked from nowhere.
  ghost predicate Apart(s: Store) {
    (forall k, x :: ApartFrom(s, k, x)) && forall k, i :: NotLinked(s, k, i)
  }

  ghost predicate ApartFrom(s: Store, k: Key, x: Key) {
    k in s.heads && x in s.heads && k != x && s.heads[k] >= 0 ==> s.heads[k] != s.heads[x]
  }

  ghost predicate NotLinked(s: Store, k: Key, i: int) {
    k in s.heads && 0 <= i < |s.versions| && s.heads[k] >= 0 ==> s.versions[i].prev != s.heads[k]
  }

  // Chains are apart, committed and strictly decreasing in commit timestamp.
  ghost predicate ChainsOk(s: Store) {
    Linked(s) && Apart(s) && forall i :: SlotOk(s, i)
  }

  ghost predicate SlotOk(s: Store, i: int) {
    0 <= i < |s.versions| ==>
      var v := s.versions[i];
      && v.status == Durable && v.commitTs < s.ts
      && (0 <= v.prev < |s.versions| ==> s.versions[v.prev].commitTs < v.commitTs)
  }
  // The head of a key's chain is the latest commit of that key.
  ghost predicate HeadsOk(s: Store, log: seq<Entered>) {
    forall j, key :: 0 <= j < |log| && Has(log[j].writes, key) ==> HeadCovers(s, log[j].commitTs, key)
  }

  ghost predicate HeadCovers(s: Store, ts: nat, key: Key) {
    0 <= Head(s, key) < |s.versions| && ts <= s.versions[Head(s, key)].commitTs
  }

  ghost predicate ReadsOk(s: Store, log: seq<Entered>) {
    forall key, ts :: VisibleValue(s, key, ts) == LastWrite(log, key, ts)
  }

  ghost predicate TxnOk(w: World, t: Txn) {
    t.readTs < w.s.ts && Distinct(t.writeSet) && forall j :: 0 <= j < |w.log| ==> w.log[j].commitTs != t.readTs
  }

  // A commit of a key began its snapshot after every earlier commit of that key.
  ghost predicate FirstWins(log: seq<Entered>) {
    forall i, j, key :: 0 <= i < j < |log| && Has(log[i].writes, key) && Has(log[j].writes, key) ==>
      log[i].commitTs < log[j].readTs
  }

  ghost predicate Inv(w: World) {
    && ChainsOk(w.s) && HeadsOk(w.s, w.log) && ReadsOk(w.s, w.log) && FirstWins(w.log)
    && (forall h <- w.txns :: TxnOk(w, w.txns[h]))
    && (forall j :: 0 <= j < |w.log| ==> w.log[j].readTs < w.log[j].commitTs < w.s.ts && Distinct(w.log[j].writes))
    && (forall i, j :: 0 <= i < j < |w.log| ==> w.log[i].commitTs < w.log[j].commitTs)
  }

  // ---------- Installing one write ----------

  // With room: a new version in front of the key's chain.
  lemma {:induction false} InstallNew(s: Store, key: Key, value: string, id: int, ts: nat, x: Key, s': Store)
    requires Linked(s) && HasRoom(s, key) && s' == InstallOne(s, key, value, id, ts)
    ensures s' == s.(heads := s'.heads, versions := s.versions + [Version(id, ts, value, Durable, Head(s, key))])
    ensures s'.heads == s.heads[key := |s.versions|]
    ensures Head(s', x) == if x == key then |s.versions| else Head(s, x)
  {
  }

  // Without room: whatever heads the key's chain is restamped.
  lemma {:induction false} InstallOver(s: Store, key: Key, value: string, id: int, ts: nat, x: Key, s': Store)
    requires Linked(s) && !HasRoom(s, key) && s' == InstallOne(s, key, value, id, ts)
    ensures s' == s.(heads := s'.heads, versions := s'.versions) && Head(s', x) == Head(s, x)
    ensures s'.heads == s.heads || (Head(s, key) < 0 && s'.heads == s.heads[key := -1])
    ensures s'.versions == if Head(s, key) < 0 then s.versions else Restamped(s.versions, Head(s, key), ts)
  {
  }

  function Restamped(vs: seq<Version>, h: int, ts: nat): seq<Version>
    requires 0 <= h < |vs|
  {
    vs[h := vs[h].(status := Durable, commitTs := ts)]
  }

  lemma {:induction false} WalkExtends(vs: seq<Version>, v: Version, i: int, ts: nat)
    requires i < |vs|
    ensures Walk(vs + [v], i, ts) == Walk(vs, i, ts)
    decreases i
  {
    if 0 <= i && !Sees(vs[i], ts) && vs[i].prev < i {
      WalkExtends(vs, v, vs[i].prev, ts);
    }
  }

  lemma {:induction false} Unlinked(s: Store, key: Key)
    requires ChainsOk(s) && Head(s, key) >= 0
    ensures forall j :: 0 <= j < |s.versions| ==> s.versions[j].prev != Head(s, key)
  {
    forall j | 0 <= j < |s.versions| ensures s.versions[j].prev != Head(s, key) {
      assert NotLinked(s, key, j);
    }
  }

  // A walk that does not start at a version linked from nowhere does not meet it.
  lemma {:induction false} WalkAvoids(vs: seq<Version>, h: int, ts: nat, i: int, r: nat)
    requires 0 <= h < |vs| && i != h && forall j :: 0 <= j < |vs| ==> vs[j].prev != h
    ensures Walk(Restamped(vs, h, ts), i, r) == Walk(vs, i, r)
    decreases i
  {
    if 0 <= i < |vs| && !Sees(vs[i], r) && vs[i].prev < i {
      WalkAvoids(vs, h, ts, vs[i].prev, r);
    }
  }

  ghost predicate Older(s: Store, key: Key, ts: nat) {
    Tip(s, key) != [] ==> Tip(s, key)[0].commitTs < ts
  }

  lemma {:induction false} InstallNewChains(s: Store, key: Key, value: string, id: int, ts: nat, s': Store)
    requires ChainsOk(s) && Older(s, key, ts) && ts < s.ts && HasRoom(s, key)
    requires s' == InstallOne(s, key, value, id, ts)
    ensures ChainsOk(s')
  {
    InstallNew(s, key, value, id, ts, key, s');
    forall i: int ensures SlotOk(s', i) {
      assert SlotOk(s, i);
    }
    forall k, x ensures ApartFrom(s', k, x) {
      assert ApartFrom(s, k, x);
    }
    forall k, i: int ensures NotLinked(s', k, i) {
      assert NotLinked(s, k, i) && ApartFrom(s, key, k);
    }
  }

  lemma {:induction false} InstallOverChains(s: Store, key: Key, value: string, id: int, ts: nat, s': Store)
    requires ChainsOk(s) && Older(s, key, ts) && ts < s.ts && !HasRoom(s, key)
    requires s' == InstallOne(s, key, value, id, ts)
    ensures ChainsOk(s')
  {
    InstallOver(s, key, value, id, ts, key, s');
    forall i: int ensures SlotOk(s', i) {
      assert SlotOk(s, i) && NotLinked(s, key, i);
    }
    forall k, x ensures ApartFrom(s', k, x) {
      assert ApartFrom(s, k, x);
    }
    forall k, i: int ensures NotLinked(s', k, i) {
      assert NotLinked(s, k, i);
    }
  }

  lemma {:induction false} InstallOneChains(s: Store, key: Key, value: string, id: int, ts: nat, s': Store)
    requires ChainsOk(s) && Older(s, key, ts) && ts < s.ts && s' == InstallOne(s, key, value, id, ts)
    ensures ChainsOk(s') && s'.ts == s.ts && s'.active == s.active
  {
    if HasRoom(s, key) {
      InstallNewChains(s, key, value, id, ts, s');
    } else {
      InstallOverChains(s, key, value, id, ts, s');
    }
  }

  // Nothing changes for a key.
  ghost predicate SameKey(s: Store, s': Store, x: Key) {
    && Head(s', x) == Head(s, x) && Tip(s', x) == Tip(s, x)
    && forall r :: VisibleValue(s', x, r) == VisibleValue(s, x, r)
  }

  lemma {:induction false} InstallNewOther(s: Store, key: Key, value: string, id: int, ts: nat, x: Key, s': Store)
    requires ChainsOk(s) && HasRoom(s, key) && x != key && s' == InstallOne(s, key, value, id, ts)
    ensures SameKey(s, s', x)
  {
    InstallNew(s, key, value, id, ts, x, s');
    forall r ensures VisibleValue(s', x, r) == VisibleValue(s, x, r) {
      WalkExtends(s.versions, Version(id, ts, value, Durable, Head(s, key)), Head(s, x), r);
    }
  }

  lemma {:induction false} InstallOverOther(s: Store, key: Key, value: string, id: int, ts: nat, x: Key, s': Store)
    requires ChainsOk(s) && !HasRoom(s, key) && x != key && s' == InstallOne(s, key, value, id, ts)
    ensures SameKey(s, s', x)
  {
    InstallOver(s, key, value, id, ts, x, s');
    var h := Head(s, key);
    if h >= 0 {
      Unlinked(s, key);
      assert ApartFrom(s, key, x);
      forall r ensures VisibleValue(s', x, r) == VisibleValue(s, x, r) {
        WalkAvoids(s.versions, h, ts, Head(s, x), r);
      }
    }
  }

  // A write changes nothing for other keys.
  lemma {:induction false} InstallOneOther(s: Store, key: Key, value: string, id: int, ts: nat, x: Key, s': Store)
    requires ChainsOk(s) && x != key && s' == InstallOne(s, key, value, id, ts)
    ensures SameKey(s, s', x)
  {
    if HasRoom(s, key) {
      InstallNewOther(s, key, value, id, ts, x, s');
    } else {
      InstallOverOther(s, key, value, id, ts, x, s');
    }
  }

  // What a write of a key should make visible.
  function Wanted(s: Store, key: Key, value: string, ts: nat, r: nat): Option<string> {
    if ts <= r then Some(value) else VisibleValue(s, key, r)
  }

  // What a restamped chain shows: from the new timestamp on the old newest value,
  // and below it what lies under the newest version.
  function Shown(s: Store, key: Key, ts: nat, r: nat): Option<string> {
    var tip := Tip(s, key);
    if tip == [] then None
    else if ts <= r then Some(tip[0].value)
    else if r < tip[0].commitTs then VisibleValue(s, key, r)
    else if |tip| == 2 then Some(tip[1].value) else None
  }

  lemma {:induction false} InstallOneOwn(s: Store, key: Key, value: string, id: int, ts: nat, r: nat, s': Store)
    requires ChainsOk(s) && Older(s, key, ts) && s' == InstallOne(s, key, value, id, ts)
    ensures VisibleValue(s', key, r) == if HasRoom(s, key) then Wanted(s, key, value, ts, r) else Shown(s, key, ts, r)
    ensures HasRoom(s, key) || Tip(s, key) != [] ==> Tip(s', key) != [] && Tip(s', key)[0].commitTs == ts
  {
    var h := Head(s, key);
    if HasRoom(s, key) {
      InstallNew(s, key, value, id, ts, key, s');
      WalkExtends(s.versions, Version(id, ts, value, Durable, h), h, r);
    } else {
      InstallOver(s, key, value, id, ts, key, s');
      if h >= 0 {
        Unlinked(s, key);
        assert SlotOk(s, h) && SlotOk(s, s.versions[h].prev);
        WalkAvoids(s.versions, h, ts, s.versions[h].prev, r);
      }
    }
  }

  // A write shows what it should at every timestamp exactly when it lands.
  lemma {:induction false} OwnExactly(s: Store, key: Key, value: string, id: int, ts: nat, s': Store)
    requires ChainsOk(s) && Older(s, key, ts) && s' == InstallOne(s, key, value, id, ts)
    ensures (forall r :: VisibleValue(s', key, r) == Wanted(s, key, value, ts, r)) <==>
            HasRoom(s, key) || Repeats(s, key, value)
  {
    forall r ensures VisibleValue(s', key, r) ==
                     if HasRoom(s, key) then Wanted(s, key, value, ts, r) else Shown(s, key, ts, r)
    {
      InstallOneOwn(s, key, value, id, ts, r, s');
    }
    ShownExactly(s, key, value, ts);
  }

  lemma {:induction false} ShownExactly(s: Store, key: Key, value: string, ts: nat)
    requires ChainsOk(s) && Older(s, key, ts)
    ensures (forall r :: Shown(s, key, ts, r) == Wanted(s, key, value, ts, r)) <==> Repeats(s, key, value)
  {
    var tip := Tip(s, key);
    assert SlotOk(s, Head(s, key));
    if forall r :: Shown(s, key, ts, r) == Wanted(s, key, value, ts, r) {
      assert Shown(s, key, ts, ts) == Wanted(s, key, value, ts, ts);
      assert Shown(s, key, ts, tip[0].commitTs) == Wanted(s, key, value, ts, tip[0].commitTs);
    }
  }

  // ---------- Installing the writes of one commit ----------

  ghost predicate Ready(s: Store, writes: Table<Key, string>, ts: nat) {
    && Distinct(writes) && ChainsOk(s) && ts < s.ts
    && forall i :: 0 <= i < |writes| ==> Older(s, writes[i].key, ts)
  }

  ghost predicate Framed(s: Store, s': Store, writes: Table<Key, string>, k: nat) {
    && ChainsOk(s') && s'.ts == s.ts && s'.active == s.active
    && forall i :: k <= i < |writes| ==> SameKey(s, s', writes[i].key)
  }

  lemma {:induction false} SameTwice(s: Store, s1: Store, s2: Store, x: Key)
    requires SameKey(s, s1, x) && SameKey(s1, s2, x)
    ensures SameKey(s, s2, x)
  {
  }

  lemma {:induction false} FrameNext(s: Store, s1: Store, s2: Store, writes: Table<Key, string>, k: nat, id: int,
                                     ts: nat)
    requires k < |writes| && Ready(s, writes, ts) && Framed(s, s1, writes, k)
    requires s2 == InstallOne(s1, writes[k].key, writes[k].value, id, ts)
    ensures Framed(s, s2, writes, k + 1)
  {
    var e := writes[k];
    assert Older(s, e.key, ts) && SameKey(s, s1, e.key);
    InstallOneChains(s1, e.key, e.value, id, ts, s2);
    forall i | k + 1 <= i < |writes| ensures SameKey(s, s2, writes[i].key) {
      InstallOneOther(s1, e.key, e.value, id, ts, writes[i].key, s2);
      SameTwice(s, s1, s2, writes[i].key);
    }
  }

  // Chains stay well formed, and a key's chain is as the commit found it until its
  // own write is installed.
  lemma {:induction false} InstallFrame(s: Store, writes: Table<Key, string>, k: nat, id: int, ts: nat, s': Store)
    requires k <= |writes| && Ready(s, writes, ts) && s' == Install(s, writes, k, id, ts)
    ensures Framed(s, s', writes, k)
    decreases k
  {
    if k == 0 {
      assert s' == s;
    } else {
      var s1 := Install(s, writes, k - 1, id, ts);
      assert s' == InstallOne(s1, writes[k - 1].key, writes[k - 1].value, id, ts);
      InstallFrame(s, writes, k - 1, id, ts, s1);
      FrameNext(s, s1, s', writes, k - 1, id, ts);
    }
  }

  // The writes from j to k change nothing for a key that is not among them.
  lemma {:induction false} InstallSpan(s: Store, writes: Table<Key, string>, j: nat, k: nat, id: int, ts: nat, x: Key,
                                       s1: Store, s2: Store)
    requires j <= k <= |writes| && Ready(s, writes, ts) && forall i :: j <= i < k ==> writes[i].key != x
    requires s1 == Install(s, writes, j, id, ts) && s2 == Install(s, writes, k, id, ts)
    ensures SameKey(s1, s2, x)
    decreases k
  {
    if j < k {
      var mid := Install(s, writes, k - 1, id, ts);
      InstallSpan(s, writes, j, k - 1, id, ts, x, s1, mid);
      InstallFrame(s, writes, k - 1, id, ts, mid);
      InstallOneOther(mid, writes[k - 1].key, writes[k - 1].value, id, ts, x, s2);
      SameTwice(s1, mid, s2, x);
    }
  }

  // What becomes of the i-th write by the end of the commit.
  lemma {:induction false} InstallWrite(s: Store, writes: Table<Key, string>, i: nat, id: int, ts: nat, s': Store)
    returns (s1: Store, s2: Store)
    requires i < |writes| && Ready(s, writes, ts) && s' == Install(s, writes, |writes|, id, ts)
    ensures s1 == Install(s, writes, i, id, ts) && s2 == InstallOne(s1, writes[i].key, writes[i].value, id, ts)
    ensures ChainsOk(s1) && SameKey(s, s1, writes[i].key) && SameKey(s2, s', writes[i].key)
  {
    s1 := Install(s, writes, i, id, ts);
    s2 := Install(s, writes, i + 1, id, ts);
    InstallFrame(s, writes, i, id, ts, s1);
    InstallSpan(s, writes, i + 1, |writes|, id, ts, writes[i].key, s2, s');
  }

  // After a commit a written key shows what it should exactly when its write lands.
  lemma {:induction false} InstallExactly(s: Store, writes: Table<Key, string>, i: nat, id: int, ts: nat, s': Store)
    requires i < |writes| && Ready(s, writes, ts) && s' == Install(s, writes, |writes|, id, ts)
    ensures (forall r :: VisibleValue(s', writes[i].key, r) == Wanted(s, writes[i].key, writes[i].value, ts, r)) <==>
            LandsAt(s, writes, i, id, ts)
  {
    var e := writes[i];
    var s1, s2 := InstallWrite(s, writes, i, id, ts, s');
    assert Older(s, e.key, ts);
    OwnExactly(s1, e.key, e.value, id, ts, s2);
    forall r ensures VisibleValue(s', e.key, r) == VisibleValue(s2, e.key, r)
      ensures Wanted(s, e.key, e.value, ts, r) == Wanted(s1, e.key, e.value, ts, r)
    {
    }
  }

  // A write that lands stamps the head of its key's chain.
  lemma {:induction false} InstallStamps(s: Store, writes: Table<Key, string>, i: nat, id: int, ts: nat, s': Store)
    requires i < |writes| && Ready(s, writes, ts) && s' == Install(s, writes, |writes|, id, ts)
    requires LandsAt(s, writes, i, id, ts)
    ensures HeadCovers(s', ts, writes[i].key)
  {
    var e := writes[i];
    var s1, s2 := InstallWrite(s, writes, i, id, ts, s');
    assert Older(s, e.key, ts);
    InstallOneOwn(s1, e.key, e.value, id, ts, 0, s2);
  }

  // A key that is not written stays as it is.
  lemma {:induction false} InstallSkips(s: Store, writes: Table<Key, string>, id: int, ts: nat, x: Key, s': Store)
    requires Ready(s, writes, ts) && !Has(writes, x) && s' == Install(s, writes, |writes|, id, ts)
    ensures SameKey(s, s', x)
  {
    assert Install(s, writes, 0, id, ts) == s;
    InstallSpan(s, writes, 0, |writes|, id, ts, x, s, s');
  }

  // ---------- Steps keep the invariant ----------

  ghost predicate Committing(w: World, t: Txn) {
    Inv(w) && TxnOk(w, t) && Commits(w.s, t)
  }

  function Result(s: Store, t: Txn): Store { Install(Bumped(s), t.writeSet, |t.writeSet|, t.id, s.ts) }

  lemma {:induction false} ChainsLater(s: Store, s': Store)
    requires ChainsOk(s) && s'.heads == s.heads && s'.versions == s.versions && s'.ts >= s.ts
    ensures ChainsOk(s')
  {
    forall i: int ensures SlotOk(s', i) {
      assert SlotOk(s, i);
    }
    forall k, x ensures ApartFrom(s', k, x) {
      assert ApartFrom(s, k, x);
    }
    forall k, i: int ensures NotLinked(s', k, i) {
      assert NotLinked(s, k, i);
    }
  }

  lemma {:induction false} CommitReady(w: World, t: Txn)
    requires Committing(w, t)
    ensures Ready(Bumped(w.s), t.writeSet, w.s.ts)
  {
    ChainsLater(w.s, Bumped(w.s));
    forall i | 0 <= i < |t.writeSet| ensures Older(Bumped(w.s), t.writeSet[i].key, w.s.ts) {
      assert SlotOk(w.s, Head(w.s, t.writeSet[i].key));
    }
  }

  // What the history wants of a key after a commit.
  lemma {:induction false} LogWants(w: World, t: Txn, log: seq<Entered>, key: Key, r: nat)
    requires Inv(w) && log == w.log + [Entered(t.readTs, w.s.ts, t.writeSet)]
    ensures LastWrite(log, key, r) ==
            if Has(t.writeSet, key) then Wanted(Bumped(w.s), key, Get(t.writeSet, key), w.s.ts, r)
            else VisibleValue(Bumped(w.s), key, r)
  {
    assert log[..|log| - 1] == w.log;
    assert VisibleValue(Bumped(w.s), key, r) == VisibleValue(w.s, key, r);
  }

  // A commit keeps visible versions equal to the history exactly when all its writes land.
  lemma {:induction false} CommitReadsExactly(w: World, t: Txn, s': Store, log: seq<Entered>)
    requires Committing(w, t) && s' == Result(w.s, t) && log == w.log + [Entered(t.readTs, w.s.ts, t.writeSet)]
    ensures ReadsOk(s', log) <==> Lands(Bumped(w.s), t.writeSet, t.id, w.s.ts)
  {
    if Lands(Bumped(w.s), t.writeSet, t.id, w.s.ts) {
      forall key, r ensures VisibleValue(s', key, r) == LastWrite(log, key, r) {
        LandsRead(w, t, s', log, key, r);
      }
    } else {
      var i :| 0 <= i < |t.writeSet| && !LandsAt(Bumped(w.s), t.writeSet, i, t.id, w.s.ts);
      MissRead(w, t, s', log, i);
    }
  }

  lemma {:induction false} LandsRead(w: World, t: Txn, s': Store, log: seq<Entered>, key: Key, r: nat)
    requires Committing(w, t) && s' == Result(w.s, t) && log == w.log + [Entered(t.readTs, w.s.ts, t.writeSet)]
    requires Lands(Bumped(w.s), t.writeSet, t.id, w.s.ts)
    ensures VisibleValue(s', key, r) == LastWrite(log, key, r)
  {
    var s, i := Bumped(w.s), Find(t.writeSet, key);
    CommitReady(w, t);
    LogWants(w, t, log, key, r);
    if i >= 0 {
      assert LandsAt(s, t.writeSet, i, t.id, w.s.ts);
      InstallExactly(s, t.writeSet, i, t.id, w.s.ts, s');
    } else {
      InstallSkips(s, t.writeSet, t.id, w.s.ts, key, s');
    }
  }

  lemma {:induction false} MissRead(w: World, t: Txn, s': Store, log: seq<Entered>, i: nat)
    requires Committing(w, t) && s' == Result(w.s, t) && log == w.log + [Entered(t.readTs, w.s.ts, t.writeSet)]
    requires i < |t.writeSet| && !LandsAt(Bumped(w.s), t.writeSet, i, t.id, w.s.ts)
    ensures !ReadsOk(s', log)
  {
    var s, e := Bumped(w.s), t.writeSet[i];
    CommitReady(w, t);
    InstallExactly(s, t.writeSet, i, t.id, w.s.ts, s');
    var r :| VisibleValue(s', e.key, r) != Wanted(s, e.key, e.value, w.s.ts, r);
    FindUnique(t.writeSet, e.key, i);
    LogWants(w, t, log, e.key, r);
    assert VisibleValue(s', e.key, r) != LastWrite(log, e.key, r);
  }

  lemma {:induction false} CommitKeepsHeads(w: World, t: Txn, s': Store, log: seq<Entered>)
    requires Committing(w, t) && s' == Result(w.s, t) && log == w.log + [Entered(t.readTs, w.s.ts, t.writeSet)]
    requires Lands(Bumped(w.s), t.writeSet, t.id, w.s.ts)
    ensures HeadsOk(s', log)
  {
    forall j, key | 0 <= j < |log| && Has(log[j].writes, key) ensures HeadCovers(s', log[j].commitTs, key) {
      assert j < |w.log| ==> log[j] == w.log[j] && HeadCovers(w.s, log[j].commitTs, key);
      CommitCovers(w, t, s', log[j].commitTs, key);
    }
  }

  lemma {:induction false} CommitCovers(w: World, t: Txn, s': Store, ts: nat, key: Key)
    requires Committing(w, t) && s' == Result(w.s, t) && Lands(Bumped(w.s), t.writeSet, t.id, w.s.ts)
    requires (HeadCovers(w.s, ts, key) && ts < w.s.ts) || (ts == w.s.ts && Has(t.writeSet, key))
    ensures HeadCovers(s', ts, key)
  {
    var s, i := Bumped(w.s), Find(t.writeSet, key);
    CommitReady(w, t);
    if i >= 0 {
      assert LandsAt(s, t.writeSet, i, t.id, w.s.ts);
      InstallStamps(s, t.writeSet, i, t.id, w.s.ts, s');
    } else {
      InstallSkips(s, t.writeSet, t.id, w.s.ts, key, s');
      assert Tip(s', key) == Tip(w.s, key) && Tip(w.s, key)[0].commitTs >= ts;
    }
  }

  // Validation compares with the latest commit of each key, so with all of them.
  lemma {:induction false} CommitKeepsFirstWins(w: World, t: Txn)
    requires Committing(w, t)
    ensures FirstWins(w.log + [Entered(t.readTs, w.s.ts, t.writeSet)])
  {
    forall i, key | 0 <= i < |w.log| && Has(w.log[i].writes, key) && Has(t.writeSet, key)
      ensures w.log[i].commitTs < t.readTs
    {
      assert HeadCovers(w.s, w.log[i].commitTs, key);
      assert t.writeSet[Find(t.writeSet, key)].key == key;
    }
  }

  lemma {:induction false} CommitKeepsInv(w: World, h: nat)
    requires Inv(w) && h in w.txns && Commits(w.s, w.txns[h])
    requires Lands(Bumped(w.s), w.txns[h].writeSet, w.txns[h].id, w.s.ts)
    ensures Inv(Next(w, DoCommit(h)))
  {
    var t, s' := w.txns[h], Result(w.s, w.txns[h]);
    var log := w.log + [Entered(t.readTs, w.s.ts, t.writeSet)];
    assert TxnOk(w, t);
    CommitReadsExactly(w, t, s', log);
    CommitKeepsHeads(w, t, s', log);
    CommitKeepsFirstWins(w, t);
    CommitReady(w, t);
    InstallFrame(Bumped(w.s), t.writeSet, |t.writeSet|, t.id, w.s.ts, s');
    CommittedInv(w, h, s', t.(commitTs := w.s.ts, status := Committed), log);
  }

  lemma {:induction false} CommittedInv(w: World, h: nat, s: Store, t: Txn, log: seq<Entered>)
    requires Inv(w) && h in w.txns
    requires t.readTs == w.txns[h].readTs && t.writeSet == w.txns[h].writeSet
    requires log == w.log + [Entered(t.readTs, w.s.ts, t.writeSet)]
    requires ChainsOk(s) && s.ts == w.s.ts + 1 && HeadsOk(s, log) && ReadsOk(s, log) && FirstWins(log)
    ensures Inv(World(s.(active := RemoveFirst(s.active, t.id)), w.txns[h := t], log))
  {
    var s' := s.(active := RemoveFirst(s.active, t.id));
    var w' := World(s', w.txns[h := t], log);
    assert TxnOk(w, w.txns[h]);
    forall g | g in w'.txns ensures TxnOk(w', w'.txns[g]) {
      assert TxnOk(w, w.txns[g]);
    }
    SameChains(s, s', log);
  }

  lemma {:induction false} SameChains(s: Store, s': Store, log: seq<Entered>)
    requires s'.heads == s.heads && s'.versions == s.versions && s'.ts >= s.ts
    ensures ChainsOk(s) ==> ChainsOk(s')
    ensures HeadsOk(s, log) ==> HeadsOk(s', log)
    ensures ReadsOk(s, log) ==> ReadsOk(s', log)
  {
    if ChainsOk(s) {
      ChainsLater(s, s');
    }
    assert forall key, ts :: VisibleValue(s', key, ts) == VisibleValue(s, key, ts);
    assert forall key, ts :: HeadCovers(s', ts, key) == HeadCovers(s, ts, key);
  }

  // A step that installs nothing.
  lemma {:induction false} IdleKeepsInv(w: World, s: Store, h: nat, t: Txn)
    requires Inv(w) && s.heads == w.s.heads && s.versions == w.s.versions && s.ts >= w.s.ts
    requires TxnOk(World(s, w.txns, w.log), t)
    ensures Inv(World(s, w.txns[h := t], w.log))
  {
    var w' := World(s, w.txns[h := t], w.log);
    SameChains(w.s, s, w.log);
    forall g | g in w'.txns ensures TxnOk(w', w'.txns[g]) {
      assert g != h ==> TxnOk(w, w.txns[g]);
    }
  }

  lemma {:induction false} NextKeepsInv(w: World, step: Step)
    requires Inv(w) && StepFits(w, step)
    ensures Inv(Next(w, step))
  {
    match step
    case DoBegin(h, id) =>
      if |w.s.active| < MAX_TXN {
        var (s, t) := Begin(w.s, id);
        IdleKeepsInv(w, s, h, t);
      }
    case DoWrite(h, key, value) =>
      if h in w.txns {
        assert TxnOk(w, w.txns[h]);
        PutEffect(w.txns[h].writeSet, key, value, key);
        IdleKeepsInv(w, w.s, h, PrepareWrite(w.txns[h], key, value));
      }
    case DoCommit(h) =>
      if h in w.txns {
        var t := w.txns[h];
        assert TxnOk(w, t);
        if Commits(w.s, t) {
          CommitKeepsInv(w, h);
        } else {
          var (s, t') := Commit(w.s, t);
          IdleKeepsInv(w, s, h, t');
        }
      }
    case DoAbort(h) =>
      if h in w.txns {
        assert TxnOk(w, w.txns[h]);
        var (s, t) := Abort(w.s, w.txns[h]);
        IdleKeepsInv(w, s, h, t);
      }
  }

  lemma {:induction false} ExecKeepsInv(w: World, steps: seq<Step>)
    requires Inv(w) && Fits(w, steps)
    ensures Inv(Exec(w, steps))
  {
    if steps != [] {
      ExecKeepsInv(w, steps[..|steps| - 1]);
      NextKeepsInv(Exec(w, steps[..|steps| - 1]), steps[|steps| - 1]);
    }
  }

  lemma {:induction false} InitInv()
    ensures Inv(Init())
  {
    assert forall key, ts :: VisibleValue(Init().s, key, ts) == None;
  }

  // In every reachable store, a snapshot read at any timestamp returns the
  // last write of the key among the transactions committed up to it.
  lemma {:induction false} SnapshotReadsHistory(steps: seq<Step>, key: Key, ts: nat)
    requires Fits(Init(), steps)
    ensures VisibleValue(Exec(Init(), steps).s, key, ts) == LastWrite(Exec(Init(), steps).log, key, ts)
  {
    InitInv();
    ExecKeepsInv(Init(), steps);
  }

  // First committer wins: of two commits of one key, the earlier took effect
  // before the later took its snapshot.
  lemma {:induction false} FirstCommitterWins(steps: seq<Step>, i: nat, j: nat, key: Key)
    requires Fits(Init(), steps) && i < j < |Exec(Init(), steps).log|
    requires Has(Exec(Init(), steps).log[i].writes, key) && Has(Exec(Init(), steps).log[j].writes, key)
    ensures Exec(Init(), steps).log[i].commitTs < Exec(Init(), steps).log[j].readTs
  {
    InitInv();
    ExecKeepsInv(Init(), steps);
  }

  // Timestamps never go back.
  lemma {:induction false} NextTs(w: World, step: Step, w': World)
    requires Inv(w) && w' == Next(w, step)
    ensures w.s.ts <= w'.s.ts
  {
    if step.DoCommit? && step.h in w.txns && Commits(w.s, w.txns[step.h]) {
      var t := w.txns[step.h];
      assert TxnOk(w, t);
      CommitReady(w, t);
      InstallFrame(Bumped(w.s), t.writeSet, |t.writeSet|, t.id, w.s.ts, Result(w.s, t));
    }
  }

  // A step adds no write to the history below the current timestamp.
  lemma {:induction false} NextLog(w: World, step: Step, w': World, key: Key, ts: nat)
    requires w' == Next(w, step) && ts < w.s.ts
    ensures LastWrite(w'.log, key, ts) == LastWrite(w.log, key, ts)
  {
    if w'.log != w.log {
      assert w'.log[..|w'.log| - 1] == w.log;
    }
  }

  // One step does not change what is visible at an allocated timestamp.
  lemma {:induction false} NextKeepsSnapshots(w: World, step: Step, w': World, key: Key, ts: nat)
    requires Inv(w) && Inv(w') && w' == Next(w, step) && ts < w.s.ts
    ensures VisibleValue(w'.s, key, ts) == VisibleValue(w.s, key, ts)
    ensures ts < w'.s.ts
  {
    NextTs(w, step, w');
    NextLog(w, step, w', key, ts);
    assert VisibleValue(w'.s, key, ts) == LastWrite(w'.log, key, ts);
  }

  lemma {:induction false} ExecKeepsSnapshots(w: World, steps: seq<Step>, key: Key, ts: nat)
    requires Inv(w) && Fits(w, steps) && ts < w.s.ts
    ensures VisibleValue(Exec(w, steps).s, key, ts) == VisibleValue(w.s, key, ts)
    ensures ts < Exec(w, steps).s.ts
  {
    if steps != [] {
      ExecKeepsInv(w, steps[..|steps| - 1]);
      ExecKeepsSnapshots(w, steps[..|steps| - 1], key, ts);
      NextKeepsInv(Exec(w, steps[..|steps| - 1]), steps[|steps| - 1]);
      NextKeepsSnapshots(Exec(w, steps[..|steps| - 1]), steps[|steps| - 1], Exec(w, steps), key, ts);
    }
  }

  // Snapshots are stable: whatever begins, commits or aborts later, the answer
  // at a timestamp that was already allocated never changes.
  lemma {:induction false} SnapshotsAreStable(before: seq<Step>, after: seq<Step>, key: Key, ts: nat)
    requires Fits(Init(), before) && Fits(Exec(Init(), before), after) && ts < Exec(Init(), before).s.ts
    ensures VisibleValue(Exec(Exec(Init(), before), after).s, key, ts)
            == VisibleValue(Exec(Init(), before).s, key, ts)
  {
    InitInv();
    ExecKeepsInv(Init(), before);
    ExecKeepsSnapshots(Exec(Init(), before), after, key, ts);
  }

  // ---------- What reads return ----------

  // What the steps of a run alone say of transaction h: its snapshot, what it wrote,
  // and whether it is still open.
  datatype Session = Session(ts: nat, own: map<Key, string>, open: bool)

  function SessionOf(steps: seq<Step>, h: nat): Session {
    if steps == [] then Session(0, map[], false) else
    var rest, s := steps[..|steps| - 1], steps[|steps| - 1];
    var w, was := Exec(Init(), rest).s, SessionOf(rest, h);
    if s.h != h then was else
    match s
    case DoBegin(_, _) => if |w.active| < MAX_TXN then Session(w.ts, map[], true) else was
    case DoWrite(_, key, value) =>
      if was.open && |was.own| < MAX_KEYS then was.(own := was.own[key := value]) else was
    case DoCommit(_) => was.(open := false)
    case DoAbort(_) => was.(open := false)
  }

  ghost predicate InSession(t: Txn, a: Session) {
    t.readTs == a.ts && Distinct(t.writeSet) && AsMap(t.writeSet) == a.own && (t.status == Active <==> a.open)
  }

  lemma {:induction false} CommitCloses(s: Store, t: Txn)
    ensures var t' := Commit(s, t).1;
            t'.readTs == t.readTs && t'.writeSet == t.writeSet && t'.status != Active
  {
  }

  lemma {:induction false} SessionNext(steps: seq<Step>, s: Step, h: nat, w: World, w': World)
    requires w == Exec(Init(), steps) && w' == Next(w, s) && h in w'.txns
    requires h in w.txns ==> InSession(w.txns[h], SessionOf(steps, h))
    ensures InSession(w'.txns[h], SessionOf(steps + [s], h))
  {
    assert (steps + [s])[..|steps|] == steps;
    if s.h == h {
      match s
      case DoBegin(_, _) =>
      case DoWrite(_, key, value) =>
        AsMapSize(w.txns[h].writeSet);
        PutAsMap(w.txns[h].writeSet, key, value);
      case DoCommit(_) => CommitCloses(w.s, w.txns[h]);
      case DoAbort(_) =>
    }
  }

  lemma {:induction false} ExecSession(steps: seq<Step>, h: nat)
    requires h in Exec(Init(), steps).txns
    ensures InSession(Exec(Init(), steps).txns[h], SessionOf(steps, h))
  {
    if steps != [] {
      var rest, s := steps[..|steps| - 1], steps[|steps| - 1];
      assert rest + [s] == steps;
      if h in Exec(Init(), rest).txns {
        ExecSession(rest, h);
      }
      SessionNext(rest, s, h, Exec(Init(), rest), Exec(Init(), steps));
    }
  }

  // In every run that fits, a read returns the transaction's own last write of the key
  // and otherwise the last write committed up to the timestamp taken when it began.
  lemma {:induction false} ReadsSnapshot(steps: seq<Step>, h: nat, key: Key)
    requires Fits(Init(), steps) && h in Exec(Init(), steps).txns
    ensures var w, a := Exec(Init(), steps), SessionOf(steps, h);
            SnapshotRead(w.s, w.txns[h], key) ==
            if key in a.own then Some(a.own[key]) else LastWrite(w.log, key, a.ts)
  {
    ExecSession(steps, h);
    AsMapHas(Exec(Init(), steps).txns[h].writeSet, key);
    SnapshotReadsHistory(steps, key, SessionOf(steps, h).ts);
  }

  // The transaction does not begin again or write the key in these steps.
  predicate Leaves(s: Step, h: nat, key: Key) {
    s.h == h ==> !s.DoBegin? && !(s.DoWrite? && s.key == key)
  }

  lemma {:induction false} SessionKept(xs: seq<Step>, ys: seq<Step>, h: nat, key: Key)
    requires xs <= ys && forall k :: |xs| <= k < |ys| ==> Leaves(ys[k], h, key)
    ensures SessionOf(ys, h).ts == SessionOf(xs, h).ts
    ensures key in SessionOf(ys, h).own <==> key in SessionOf(xs, h).own
    ensures key in SessionOf(ys, h).own ==> SessionOf(ys, h).own[key] == SessionOf(xs, h).own[key]
    ensures h in Exec(Init(), xs).txns ==> h in Exec(Init(), ys).txns
    decreases |ys|
  {
    if xs != ys {
      assert Leaves(ys[|ys| - 1], h, key);
      SessionKept(xs, ys[..|ys| - 1], h, key);
    }
  }

  // Repeatable reads: whatever else runs in between, two reads of a key agree unless
  // the transaction itself wrote it.
  lemma {:induction false} RepeatableRead(xs: seq<Step>, ys: seq<Step>, h: nat, key: Key)
    requires Fits(Init(), ys) && xs <= ys && h in Exec(Init(), xs).txns
    requires forall k :: |xs| <= k < |ys| ==> Leaves(ys[k], h, key)
    ensures h in Exec(Init(), ys).txns
    ensures var w, w' := Exec(Init(), xs), Exec(Init(), ys);
            SnapshotRead(w'.s, w'.txns[h], key) == SnapshotRead(w.s, w.txns[h], key)
  {
    SessionKept(xs, ys, h, key);
    PrefixFits(xs, ys);
    ReadsSnapshot(xs, h, key);
    ReadsSnapshot(ys, h, key);
    SnapshotTaken(xs, h);
    LogKept(xs, ys, key, SessionOf(xs, h).ts);
  }

  lemma {:induction false} PrefixFits(xs: seq<Step>, ys: seq<Step>)
    requires Fits(Init(), ys) && xs <= ys
    ensures Fits(Init(), xs)
  {
    FitsPrefix(Init(), ys, |xs|);
    assert ys[..|xs|] == xs;
  }

  lemma {:induction false} SnapshotTaken(steps: seq<Step>, h: nat)
    requires Fits(Init(), steps) && h in Exec(Init(), steps).txns
    ensures SessionOf(steps, h).ts < Exec(Init(), steps).s.ts
  {
    InitInv();
    ExecKeepsInv(Init(), steps);
    ExecSession(steps, h);
    assert TxnOk(Exec(Init(), steps), Exec(Init(), steps).txns[h]);
  }

  lemma {:induction false} LogKept(xs: seq<Step>, ys: seq<Step>, key: Key, ts: nat)
    requires Fits(Init(), ys) && xs <= ys && ts < Exec(Init(), xs).s.ts
    ensures LastWrite(Exec(Init(), ys).log, key, ts) == LastWrite(Exec(Init(), xs).log, key, ts)
    ensures ts < Exec(Init(), ys).s.ts
    decreases |ys|
  {
    if xs != ys {
      var rest := ys[..|ys| - 1];
      LogKept(xs, rest, key, ts);
      InitInv();
      ExecKeepsInv(Init(), rest);
      NextLog(Exec(Init(), rest), ys[|ys| - 1], Exec(Init(), ys), key, ts);
      NextTs(Exec(Init(), rest), ys[|ys| - 1], Exec(Init(), ys));
    }
  }

  // ---------- Who is active ----------

  lemma {:induction false} RemoveFirstTakes(xs: seq<int>, x: int)
    ensures multiset(RemoveFirst(xs, x)) == multiset(xs) - multiset{x}
  {
    if xs != [] {
      assert xs == [xs[0]] + xs[1..];
      if xs[0] != x {
        RemoveFirstTakes(xs[1..], x);
      }
    }
  }

  // A transaction that ends gives up exactly its own entry of the active list, so that
  // another can begin.
  lemma {:induction false} EndingFrees(steps: seq<Step>, h: nat, end: Step)
    requires h in Exec(Init(), steps).txns && (end == DoCommit(h) || end == DoAbort(h)) && SessionOf(steps, h).open
    ensures var s, s' := Exec(Init(), steps).s, Exec(Init(), steps + [end]).s;
            multiset(s'.active) == multiset(s.active) - multiset{Exec(Init(), steps).txns[h].id}
  {
    var s, t := Exec(Init(), steps).s, Exec(Init(), steps).txns[h];
    assert (steps + [end])[..|steps|] == steps;
    ExecSession(steps, h);
    RemoveFirstTakes(s.active, t.id);
    InstallKeepsActive(Bumped(s), t.writeSet, |t.writeSet|, t.id, s.ts);
  }

  lemma {:induction false} InstallKeepsActive(s: Store, writes: Table<Key, string>, k: nat, id: int, ts: nat)
    requires k <= |writes|
    ensures Install(s, writes, k, id, ts).active == s.active
  {
    if k > 0 {
      InstallKeepsActive(s, writes, k - 1, id, ts);
    }
  }

  // ---------- What commits are refused ----------

  // The head of every chain was stamped by a commit of its key.
  ghost predicate HeadFrom(s: Store, log: seq<Entered>, key: Key) {
    Tip(s, key) != [] ==>
      exists j :: 0 <= j < |log| && log[j].commitTs == Tip(s, key)[0].commitTs && Has(log[j].writes, key)
  }

  ghost predicate AllHeads(w: World) { forall key :: HeadFrom(w.s, w.log, key) }

  lemma {:induction false} CommitHead(w: World, t: Txn, s': Store, log: seq<Entered>, key: Key)
    requires Committing(w, t) && s' == Result(w.s, t) && log == w.log + [Entered(t.readTs, w.s.ts, t.writeSet)]
    requires HeadFrom(w.s, w.log, key) && Lands(Bumped(w.s), t.writeSet, t.id, w.s.ts)
    ensures HeadFrom(s', log, key)
  {
    var s, i, n := Bumped(w.s), Find(t.writeSet, key), |w.log|;
    CommitReady(w, t);
    if i >= 0 {
      assert LandsAt(s, t.writeSet, i, t.id, w.s.ts);
      InstallStampsHead(s, t.writeSet, i, t.id, w.s.ts, s');
      assert log[n].commitTs == w.s.ts && Has(log[n].writes, key);
    } else {
      InstallSkips(s, t.writeSet, t.id, w.s.ts, key, s');
      assert Tip(s', key) == Tip(w.s, key);
      if Tip(s', key) != [] {
        var j :| 0 <= j < n && w.log[j].commitTs == Tip(w.s, key)[0].commitTs && Has(w.log[j].writes, key);
        assert log[j] == w.log[j];
      }
    }
  }

  lemma {:induction false} InstallStampsHead(s: Store, writes: Table<Key, string>, i: nat, id: int, ts: nat, s': Store)
    requires i < |writes| && Ready(s, writes, ts) && s' == Install(s, writes, |writes|, id, ts)
    requires LandsAt(s, writes, i, id, ts)
    ensures Tip(s', writes[i].key) != [] && Tip(s', writes[i].key)[0].commitTs == ts
  {
    var e := writes[i];
    var s1, s2 := InstallWrite(s, writes, i, id, ts, s');
    assert Older(s, e.key, ts);
    InstallOneOwn(s1, e.key, e.value, id, ts, 0, s2);
  }

  lemma {:induction false} NextHeads(w: World, step: Step, w': World)
    requires Inv(w) && AllHeads(w) && StepFits(w, step) && w' == Next(w, step)
    ensures AllHeads(w')
  {
    forall key ensures HeadFrom(w'.s, w'.log, key) {
      assert HeadFrom(w.s, w.log, key);
      if step.DoCommit? && step.h in w.txns && Commits(w.s, w.txns[step.h]) {
        var t := w.txns[step.h];
        assert TxnOk(w, t);
        CommitHead(w, t, Result(w.s, t), w'.log, key);
        assert Tip(w'.s, key) == Tip(Result(w.s, t), key);
      } else {
        assert Tip(w'.s, key) == Tip(w.s, key);
      }
    }
  }

  lemma {:induction false} ExecHeads(steps: seq<Step>)
    requires Fits(Init(), steps)
    ensures AllHeads(Exec(Init(), steps))
  {
    if steps == [] {
      assert forall key :: Tip(Init().s, key) == [];
    } else {
      var rest := steps[..|steps| - 1];
      ExecHeads(rest);
      InitInv();
      ExecKeepsInv(Init(), rest);
      NextHeads(Exec(Init(), rest), steps[|steps| - 1], Exec(Init(), steps));
    }
  }

  // No key was committed by somebody else after the timestamp.
  ghost predicate Uncontested(log: seq<Entered>, keys: set<Key>, ts: nat) {
    forall j, key :: 0 <= j < |log| && key in keys && Has(log[j].writes, key) ==> log[j].commitTs <= ts
  }

  lemma {:induction false} ValidExactly(w: World, t: Txn)
    requires Inv(w) && AllHeads(w) && Distinct(t.writeSet)
    ensures WriteSetValid(w.s, t) <==> Uncontested(w.log, AsMap(t.writeSet).Keys, t.readTs)
  {
    if WriteSetValid(w.s, t) {
      forall j, key | 0 <= j < |w.log| && key in AsMap(t.writeSet).Keys && Has(w.log[j].writes, key)
        ensures w.log[j].commitTs <= t.readTs
      {
        AsMapHas(t.writeSet, key);
        assert HeadCovers(w.s, w.log[j].commitTs, key) && t.writeSet[Find(t.writeSet, key)].key == key;
      }
    }
    if Uncontested(w.log, AsMap(t.writeSet).Keys, t.readTs) {
      forall i | 0 <= i < |t.writeSet| && 0 <= Head(w.s, t.writeSet[i].key) < |w.s.versions|
        ensures w.s.versions[Head(w.s, t.writeSet[i].key)].commitTs <= t.readTs
      {
        var key := t.writeSet[i].key;
        FindUnique(t.writeSet, key, i);
        AsMapHas(t.writeSet, key);
        assert HeadFrom(w.s, w.log, key) && Tip(w.s, key) != [];
      }
    }
  }

  // After every run that fits, a commit of an open transaction enters the history
  // exactly when nobody committed one of its keys since it began, and then under the
  // next timestamp with what it wrote; otherwise nothing is installed.
  lemma {:induction false} CommitsExactly(steps: seq<Step>, h: nat)
    requires Fits(Init(), steps) && h in Exec(Init(), steps).txns
    ensures var w, w', a := Exec(Init(), steps), Exec(Init(), steps + [DoCommit(h)]), SessionOf(steps, h);
            if a.open && Uncontested(w.log, a.own.Keys, a.ts)
            then |w'.log| == |w.log| + 1 && w'.log[..|w.log|] == w.log && var c := w'.log[|w.log|];
                 c.readTs == a.ts && c.commitTs == w.s.ts && AsMap(c.writes) == a.own
            else w'.log == w.log && w'.s.versions == w.s.versions && w'.s.heads == w.s.heads
  {
    var w := Exec(Init(), steps);
    assert (steps + [DoCommit(h)])[..|steps|] == steps;
    InitInv();
    ExecKeepsInv(Init(), steps);
    ExecHeads(steps);
    ExecSession(steps, h);
    ValidExactly(w, w.txns[h]);
  }

  // ---------- Why commits need room ----------

  // With a full version table a commit restamps the newest version of the key, so
  // that a snapshot that saw it before no longer does.
  lemma {:induction false} FullTableRestampsHead(s: Store, key: Key, value: string, id: int, ts: nat, r: nat)
    requires Linked(s) && |s.versions| >= MAX_VERSIONS && Head(s, key) >= 0
    requires Sees(s.versions[Head(s, key)], r) && r < ts
    ensures Visible(s, key, r) == Head(s, key) && Visible(InstallOne(s, key, value, id, ts), key, r) < Head(s, key)
  {
    var h, s' := Head(s, key), InstallOne(s, key, value, id, ts);
    assert s'.versions[h] == s.versions[h].(status := Durable, commitTs := ts) && Head(s', key) == h;
    WalkGoesBack(s'.versions, s'.versions[h].prev, r);
  }

  lemma {:induction false} WalkGoesBack(vs: seq<Version>, i: int, r: nat)
    requires -1 <= i < |vs|
    ensures Walk(vs, i, r) <= i
    decreases i
  {
    if 0 <= i && !Sees(vs[i], r) && -1 <= vs[i].prev < i {
      WalkGoesBack(vs, vs[i].prev, r);
    }
  }

  // A key without a version gets none when either table is full.
  lemma {:induction false} FullTableDropsWrite(s: Store, key: Key, value: string, id: int, ts: nat, r: nat)
    requires Head(s, key) < 0 && !HasRoom(s, key)
    ensures VisibleValue(InstallOne(s, key, value, id, ts), key, r) == None
  {
  }

  lemma {:induction false} FitsPrefix(w: World, steps: seq<Step>, k: nat)
    requires Fits(w, steps) && k <= |steps|
    ensures Fits(w, steps[..k])
  {
    if k < |steps| {
      assert steps[..|steps| - 1][..k] == steps[..k];
      FitsPrefix(w, steps[..|steps| - 1], k);
    } else {
      assert steps[..k] == steps;
    }
  }

  ghost predicate ReadsHistory(w: World) { ReadsOk(w.s, w.log) }

  // A step after which reads still equal the history fits.
  lemma {:induction false} NextFits(w: World, step: Step)
    requires Inv(w) && ReadsHistory(Next(w, step))
    ensures StepFits(w, step)
  {
    if step.DoCommit? && step.h in w.txns && Commits(w.s, w.txns[step.h]) {
      var t, w' := w.txns[step.h], Next(w, step);
      var s' := Result(w.s, t);
      assert TxnOk(w, t);
      CommitReadsExactly(w, t, s', w'.log);
      SameReads(s', w'.s, w'.log);
    }
  }

  lemma {:induction false} SameReads(s: Store, s': Store, log: seq<Entered>)
    requires s'.heads == s.heads && s'.versions == s.versions
    ensures ReadsOk(s, log) <==> ReadsOk(s', log)
  {
    assert forall key, ts :: VisibleValue(s', key, ts) == VisibleValue(s, key, ts);
  }

  // Exactly the runs whose commits land all their writes read the history throughout.
  lemma {:induction false} SnapshotReadsExactly(steps: seq<Step>)
    ensures Fits(Init(), steps) <==> forall k :: 0 <= k <= |steps| ==> ReadsHistory(Exec(Init(), steps[..k]))
  {
    InitInv();
    if Fits(Init(), steps) {
      forall k | 0 <= k <= |steps| ensures ReadsHistory(Exec(Init(), steps[..k])) {
        FitsPrefix(Init(), steps, k);
        ExecKeepsInv(Init(), steps[..k]);
      }
    }
    if forall k :: 0 <= k <= |steps| ==> ReadsHistory(Exec(Init(), steps[..k])) {
      ReadsFit(steps);
    }
  }

  lemma {:induction false} ReadsFit(steps: seq<Step>)
    requires forall k :: 0 <= k <= |steps| ==> ReadsHistory(Exec(Init(), steps[..k]))
    ensures Fits(Init(), steps)
  {
    if steps != [] {
      var rest := steps[..|steps| - 1];
      forall k | 0 <= k <= |rest| ensures ReadsHistory(Exec(Init(), rest[..k])) {
        assert rest[..k] == steps[..k];
      }
      ReadsFit(rest);
      InitInv();
      ExecKeepsInv(Init(), rest);
      assert steps[..|steps|] == steps;
      NextFits(Exec(Init(), rest), steps[|steps| - 1]);
    }
  }

  // What a commit does to snapshots that were taken before it: a write keeps them if
  // it has room, if its key had no version, or if the two newest ones agree.
  predicate Undisturbed(s: Store, writes: Table<Key, string>, i: nat, id: int, ts: nat)
    requires i < |writes|
  {
    var tip := Tip(s, writes[i].key);
    HasRoom(Install(s, writes, i, id, ts), writes[i].key) || tip == [] || (|tip| == 2 && tip[0].value == tip[1].value)
  }

  lemma {:induction false} ShownStable(s: Store, key: Key, ts: nat)
    requires ChainsOk(s) && Older(s, key, ts)
    ensures var tip := Tip(s, key);
            (forall r: nat :: r < ts ==> Shown(s, key, ts, r) == VisibleValue(s, key, r)) <==>
            tip == [] || (|tip| == 2 && tip[0].value == tip[1].value)
  {
    var tip := Tip(s, key);
    assert SlotOk(s, Head(s, key));
    if tip != [] && forall r: nat :: r < ts ==> Shown(s, key, ts, r) == VisibleValue(s, key, r) {
      assert Shown(s, key, ts, tip[0].commitTs) == VisibleValue(s, key, tip[0].commitTs);
    }
  }

  lemma {:induction false} InstallStable(s: Store, writes: Table<Key, string>, i: nat, id: int, ts: nat, s': Store)
    requires i < |writes| && Ready(s, writes, ts) && s' == Install(s, writes, |writes|, id, ts)
    ensures (forall r: nat :: r < ts ==> VisibleValue(s', writes[i].key, r) == VisibleValue(s, writes[i].key, r)) <==>
            Undisturbed(s, writes, i, id, ts)
  {
    var e := writes[i];
    var s1, s2 := InstallWrite(s, writes, i, id, ts, s');
    assert Older(s, e.key, ts);
    forall r ensures VisibleValue(s2, e.key, r) ==
                     if HasRoom(s1, e.key) then Wanted(s1, e.key, e.value, ts, r) else Shown(s1, e.key, ts, r)
    {
      InstallOneOwn(s1, e.key, e.value, id, ts, r, s2);
    }
    ShownStable(s1, e.key, ts);
  }

  // A commit leaves every earlier snapshot alone exactly when each of its writes does.
  lemma {:induction false} CommitStableExactly(w: World, t: Txn, s': Store)
    requires Committing(w, t) && s' == Result(w.s, t)
    ensures (forall key, r: nat :: r < w.s.ts ==> VisibleValue(s', key, r) == VisibleValue(w.s, key, r)) <==>
            forall i :: 0 <= i < |t.writeSet| ==> Undisturbed(Bumped(w.s), t.writeSet, i, t.id, w.s.ts)
  {
    var s := Bumped(w.s);
    CommitReady(w, t);
    assert forall key, r :: VisibleValue(s, key, r) == VisibleValue(w.s, key, r);
    if forall i :: 0 <= i < |t.writeSet| ==> Undisturbed(s, t.writeSet, i, t.id, w.s.ts) {
      forall key, r: nat | r < w.s.ts ensures VisibleValue(s', key, r) == VisibleValue(w.s, key, r) {
        var i := Find(t.writeSet, key);
        if i >= 0 {
          InstallStable(s, t.writeSet, i, t.id, w.s.ts, s');
        } else {
          InstallSkips(s, t.writeSet, t.id, w.s.ts, key, s');
        }
      }
    } else {
      var i :| 0 <= i < |t.writeSet| && !Undisturbed(s, t.writeSet, i, t.id, w.s.ts);
      InstallStable(s, t.writeSet, i, t.id, w.s.ts, s');
    }
  }

  // ---------- A run that fills the version table ----------

  // One key with k versions of one value, and nobody active.
  ghost predicate Filled(w: World, k: nat) {
    && |w.s.versions| == k && w.s.active == []
    && w.s.heads == (if k == 0 then map[] else map["a" := k - 1])
    && forall i :: 0 <= i < k ==> w.s.versions[i].value == "old" && w.s.versions[i].commitTs < w.s.ts
  }

  lemma {:induction false} Extend(xs: seq<Step>, w: World, step: Step, w': World) returns (ys: seq<Step>)
    requires Exec(Init(), xs) == w && Next(w, step) == w'
    ensures ys == xs + [step] && Exec(Init(), ys) == w'
  {
    ys := xs + [step];
    assert ys[..|ys| - 1] == xs;
  }

  // Begin, write and commit one value of key "a".
  lemma {:induction false} WriteOnce(xs: seq<Step>, w: World, k: nat, value: string, s: Store) returns (ys: seq<Step>)
    requires Exec(Init(), xs) == w && Filled(w, k) && s == w.s.(ts := w.s.ts + 2, active := [1])
    ensures Exec(Init(), ys).s == InstallOne(s, "a", value, 1, w.s.ts + 1).(active := [])
    ensures Exec(Init(), ys).log == w.log + [Entered(w.s.ts, w.s.ts + 1, [Entry("a", value)])]
  {
    var t := Txn(1, w.s.ts, 0, Active, [Entry("a", value)]);
    var w1 := World(w.s.(ts := w.s.ts + 1, active := [1]), w.txns[0 := t.(writeSet := [])], w.log);
    var w2 := World(w.s.(ts := w.s.ts + 1, active := [1]), w.txns[0 := t], w.log);
    WritesOnce(w, w1, w2, t, value);
    FilledValid(w, k, w2.s, t, value);
    ys := Extend(xs, w, DoBegin(0, 1), w1);
    ys := Extend(ys, w1, DoWrite(0, "a", value), w2);
    ys := EndsOnce(ys, w2, t, value);
  }

  lemma {:induction false} FilledValid(w: World, k: nat, s: Store, t: Txn, value: string)
    requires Filled(w, k) && t == Txn(1, w.s.ts, 0, Active, [Entry("a", value)])
    requires s == w.s.(ts := w.s.ts + 1, active := [1])
    ensures WriteSetValid(s, t)
  {
  }

  lemma {:induction false} EndsOnce(xs: seq<Step>, w: World, t: Txn, value: string) returns (ys: seq<Step>)
    requires Exec(Init(), xs) == w && 0 in w.txns && w.txns[0] == t && w.s.active == [1] && t.id == 1
    requires t.status == Active && t.writeSet == [Entry("a", value)] && WriteSetValid(w.s, t)
    ensures Exec(Init(), ys).s == InstallOne(Bumped(w.s), "a", value, 1, w.s.ts).(active := [])
    ensures Exec(Init(), ys).log == w.log + [Entered(t.readTs, w.s.ts, t.writeSet)]
  {
    var w' := Next(w, DoCommit(0));
    CommitOnce(w, t, value, w');
    ys := Extend(xs, w, DoCommit(0), w');
  }

  lemma {:induction false} WritesOnce(w: World, w1: World, w2: World, t: Txn, value: string)
    requires w.s.active == [] && t == Txn(1, w.s.ts, 0, Active, [Entry("a", value)])
    requires w1 == World(w.s.(ts := w.s.ts + 1, active := [1]), w.txns[0 := t.(writeSet := [])], w.log)
    requires w2 == World(w.s.(ts := w.s.ts + 1, active := [1]), w.txns[0 := t], w.log)
    ensures Next(w, DoBegin(0, 1)) == w1 && Next(w1, DoWrite(0, "a", value)) == w2
  {
    assert PrepareWrite(t.(writeSet := []), "a", value) == t;
    assert w1.txns[0 := t] == w.txns[0 := t];
  }

  lemma {:induction false} CommitOnce(w: World, t: Txn, value: string, w': World)
    requires 0 in w.txns && w.txns[0] == t && w.s.active == [1] && w' == Next(w, DoCommit(0)) && t.id == 1
    requires t.status == Active && t.writeSet == [Entry("a", value)] && WriteSetValid(w.s, t)
    ensures w'.s == InstallOne(Bumped(w.s), "a", value, 1, w.s.ts).(active := [])
    ensures w'.log == w.log + [Entered(t.readTs, w.s.ts, t.writeSet)]
  {
    var s := Bumped(w.s);
    assert Install(s, t.writeSet, 0, 1, w.s.ts) == s;
    assert Install(s, t.writeSet, 1, 1, w.s.ts) == InstallOne(s, "a", value, 1, w.s.ts);
    assert RemoveFirst([1], 1) == [];
  }

  lemma {:induction false} FilledMore(w: World, s: Store, k: nat, w': World)
    requires Filled(w, k) && k < MAX_VERSIONS && s == w.s.(ts := w.s.ts + 2, active := [1])
    requires w'.s == InstallOne(s, "a", "old", 1, w.s.ts + 1).(active := [])
    ensures Filled(w', k + 1)
  {
  }

  lemma {:induction false} FillTable(k: nat) returns (xs: seq<Step>)
    requires k <= MAX_VERSIONS
    ensures Filled(Exec(Init(), xs), k)
  {
    xs := [];
    var i := 0;
    while i < k
      invariant 0 <= i <= k && Filled(Exec(Init(), xs), i)
    {
      xs := FillNext(xs, i);
      i := i + 1;
    }
  }

  lemma {:induction false} FillNext(xs: seq<Step>, k: nat) returns (ys: seq<Step>)
    requires k < MAX_VERSIONS && Filled(Exec(Init(), xs), k)
    ensures Filled(Exec(Init(), ys), k + 1)
  {
    var w := Exec(Init(), xs);
    var s := w.s.(ts := w.s.ts + 2, active := [1]);
    ys := WriteOnce(xs, w, k, "old", s);
    FilledMore(w, s, k, Exec(Init(), ys));
  }

  lemma {:induction false} OldValueStays(w: World, s: Store, w': World)
    requires Filled(w, MAX_VERSIONS) && s == w.s.(ts := w.s.ts + 2, active := [1])
    requires w'.s == InstallOne(s, "a", "new", 1, w.s.ts + 1).(active := [])
    requires w'.log == w.log + [Entered(w.s.ts, w.s.ts + 1, [Entry("a", "new")])]
    ensures VisibleValue(w'.s, "a", w'.s.ts) == Some("old") && LastWrite(w'.log, "a", w'.s.ts) == Some("new")
  {
    assert w'.log[|w'.log| - 1] == Entered(w.s.ts, w.s.ts + 1, [Entry("a", "new")]);
    assert Head(w'.s, "a") == MAX_VERSIONS - 1;
  }

  // After 1024 commits of one value the next value of the key is lost: everybody
  // still reads the old one.
  lemma {:induction false} FullTableReadsOldValue() returns (xs: seq<Step>)
    ensures var w := Exec(Init(), xs);
            VisibleValue(w.s, "a", w.s.ts) == Some("old") && LastWrite(w.log, "a", w.s.ts) == Some("new")
  {
    var ys := FillTable(MAX_VERSIONS);
    var v, w := Exec(Init(), ys).s, Exec(Init(), ys);
    var s := v.(ts := v.ts + 2, active := [1]);
    xs := WriteOnce(ys, w, MAX_VERSIONS, "new", s);
    OldValueStays(w, s, Exec(Init(), xs));
  }

  // ---------- The code ----------

  lemma {:induction false} RemoveFirstAt(xs: seq<int>, x: int, i: nat)
    requires i <= |xs| && forall j :: 0 <= j < i ==> xs[j] != x
    ensures i == |xs| ==> RemoveFirst(xs, x) == xs
    ensures i < |xs| && xs[i] == x ==> RemoveFirst(xs, x) == xs[..i] + xs[i + 1..]
  {
    if i > 0 {
      RemoveFirstAt(xs[1..], x, i - 1);
    }
  }

  class MvccTransaction {
    var id: int
    var readTs: nat
    var commitTs: nat
    var status: TxnStatus
    var writeSet: Table<Key, string>
    var readKeys: seq<Key>

    function View(): Txn
      reads this
    {
      Txn(id, readTs, commitTs, status, writeSet)
    }

    method BufferWrite(key: Key, value: string) returns (ok: bool)
      modifies this
      ensures View() == PrepareWrite(old(View()), key, value) && ok == CanWrite(old(View()))
    {
      if status != Active || |writeSet| >= MAX_KEYS {
        return false;
      }
      var i := FindIndex(writeSet, key);
      if i >= 0 {
        writeSet := writeSet[i := Entry(key, value)];
      } else {
        writeSet := writeSet + [Entry(key, value)];
      }
      ok := true;
    }
  }

  class MvccStore {
    var heads: Table<Key, int>
    var versions: seq<Version>
    var ts: nat
    var active: seq<int>

    ghost predicate Ok()
      reads this
    {
      Distinct(heads) && Linked(View())
    }

    ghost function View(): Store
      reads this
    {
      Store(AsMap(heads), versions, ts, active)
    }

    constructor ()
      ensures Ok() && View() == Init().s
    {
      heads, versions, ts, active := [], [], 1, [];
    }

    method AllocateTs() returns (t: nat)
      requires Ok()
      modifies `ts
      ensures Ok() && t == old(ts) && View() == Bumped(old(View()))
    {
      t := ts;
      ts := ts + 1;
    }

    method BeginTxn(t: MvccTransaction, id: int) returns (ok: bool)
      requires Ok()
      modifies this, t
      ensures Ok() && ok == (|old(active)| < MAX_TXN)
      ensures ok ==> (View(), t.View()) == Begin(old(View()), id) && t.readKeys == []
      ensures !ok ==> View() == old(View()) && t.View() == old(t.View())
    {
      if |active| >= MAX_TXN {
        return false;
      }
      t.id, t.commitTs, t.status, t.writeSet, t.readKeys := id, 0, Active, [], [];
      t.readTs := AllocateTs();
      active := active + [id];
      ok := true;
    }

    method ChainHead(key: Key) returns (h: int)
      ensures h == Head(View(), key)
    {
      var i := FindIndex(heads, key);
      h := if i >= 0 then heads[i].value else -1;
    }

    method VisibleVersion(key: Key, readTs: nat) returns (r: int)
      requires Ok()
      ensures r == Visible(View(), key, readTs)
    {
      r := ChainHead(key);
      while r >= 0
        invariant -1 <= r < |versions|
        invariant Walk(versions, r, readTs) == Visible(View(), key, readTs)
      {
        if versions[r].status == Durable && versions[r].commitTs <= readTs {
          return;
        }
        r := versions[r].prev;
      }
    }

    // A read of a version, not of an own write, is remembered while there is room.
    method ReadSnapshot(t: MvccTransaction, key: Key) returns (r: Option<string>)
      requires Ok()
      modifies t`readKeys
      ensures r == SnapshotRead(View(), t.View(), key)
      ensures t.readKeys == if !Has(t.writeSet, key) && r.Some? && |old(t.readKeys)| < MAX_KEYS
                            then old(t.readKeys) + [key] else old(t.readKeys)
    {
      var i := FindIndex(t.writeSet, key);
      if i >= 0 {
        return Some(t.writeSet[i].value);
      }
      i := VisibleVersion(key, t.readTs);
      if i < 0 {
        return None;
      }
      if |t.readKeys| < MAX_KEYS {
        t.readKeys := t.readKeys + [key];
      }
      r := Some(versions[i].value);
    }

    method ValidateWriteSet(t: MvccTransaction) returns (ok: bool)
      requires Ok()
      ensures ok == WriteSetValid(View(), t.View())
    {
      var i := 0;
      while i < |t.writeSet|
        invariant 0 <= i <= |t.writeSet|
        invariant forall j :: 0 <= j < i ==>
                    var h := Head(View(), t.writeSet[j].key); h >= 0 ==> versions[h].commitTs <= t.readTs
      {
        var h := ChainHead(t.writeSet[i].key);
        if h >= 0 && versions[h].commitTs > t.readTs {
          return false;
        }
        i := i + 1;
      }
      ok := true;
    }

    method FindOrCreateRecord(key: Key) returns (i: int)
      requires Ok()
      modifies `heads
      ensures Ok() && View() == FindOrCreate(old(View()), key) && i == Find(heads, key)
    {
      AsMapSize(heads);
      i := FindIndex(heads, key);
      if i >= 0 {
        return;
      }
      if |heads| >= MAX_KEYS {
        return -1;
      }
      PutAsMap(heads, key, -1);
      i := |heads|;
      heads := heads + [Entry(key, -1)];
      FindUnique(heads, key, i);
    }

    method AppendVersion(key: Key, v: Version)
      requires Ok()
      modifies `heads, `versions
      ensures Ok() && View() == ChainAppend(old(View()), key, v)
    {
      var i := FindOrCreateRecord(key);
      if i < 0 || |versions| >= MAX_VERSIONS {
        return;
      }
      PutAsMap(heads, key, |versions|);
      ghost var s := View();
      versions := versions + [v.(prev := heads[i].value)];
      heads := heads[i := Entry(key, |versions| - 1)];
      assert View() == s.(versions := s.versions + [v.(prev := s.heads[key])], heads := s.heads[key := |s.versions|]);
    }

    method InstallVersion(key: Key, value: string, id: int, commitTs: nat)
      requires Ok()
      modifies `heads, `versions
      ensures Ok() && View() == InstallOne(old(View()), key, value, id, commitTs)
    {
      AppendVersion(key, Version(id, commitTs, value, Fresh, -1));
      var h := ChainHead(key);
      if h >= 0 {
        versions := versions[h := versions[h].(status := Durable, commitTs := commitTs)];
      }
    }

    method RemoveActive(id: int)
      requires Ok()
      modifies `active
      ensures Ok() && active == RemoveFirst(old(active), id)
    {
      var i := 0;
      while i < |active|
        invariant 0 <= i <= |active| && forall j :: 0 <= j < i ==> active[j] != id
      {
        if active[i] == id {
          RemoveFirstAt(active, id, i);
          active := active[..i] + active[i + 1..];
          return;
        }
        i := i + 1;
      }
      RemoveFirstAt(active, id, i);
    }

    method AbortTxn(t: MvccTransaction)
      requires Ok()
      modifies this, t
      ensures Ok() && (View(), t.View()) == Abort(old(View()), old(t.View()))
    {
      t.status := Aborted;
      RemoveActive(t.id);
    }

    method CommitTxn(t: MvccTransaction) returns (ok: bool)
      requires Ok()
      modifies this, t
      ensures Ok() && (View(), t.View()) == Commit(old(View()), old(t.View()))
      ensures ok == Commits(old(View()), old(t.View()))
    {
      if t.status != Active {
        return false;
      }
      t.commitTs := AllocateTs();
      ok := ValidateWriteSet(t);
      if !ok {
        AbortTxn(t);
        return;
      }
      InstallAll(t);
      t.status := Committed;
      RemoveActive(t.id);
    }

    method InstallAll(t: MvccTransaction)
      requires Ok()
      modifies `heads, `versions
      ensures Ok() && View() == Install(old(View()), t.writeSet, |t.writeSet|, t.id, t.commitTs)
    {
      ghost var s, v := View(), View();
      var writes, i := t.writeSet, 0;
      while i < |writes|
        invariant 0 <= i <= |writes| && Ok()
        invariant v == View()
        invariant v == Install(s, writes, i, t.id, t.commitTs)
      {
        InstallNext(s, writes, i, t.id, t.commitTs);
        v := InstallOne(v, writes[i].key, writes[i].value, t.id, t.commitTs);
        InstallVersion(writes[i].key, writes[i].value, t.id, t.commitTs);
        i := i + 1;
      }
    }
  }
}
