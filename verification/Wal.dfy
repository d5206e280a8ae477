/**
 * Write-ahead log recovery: redo everything from the checkpoint, then undo the
 * transactions without a COMMIT or ABORT record in reverse order.
 */
module Wal {
  import opened Options

  type Key = string

  type Store = map<Key, string>

  datatype Kind = Insert | Update | Delete | Begin | Commit | Abort | Checkpoint

  datatype Rec = Rec(lsn: nat, prevLsn: nat, kind: Kind, txn: int, key: Key, oldValue: string, newValue: string,
                     time: int)

  const MAX_RECORDS := 512
  const MAX_LOSERS := 64
  const MAX_LSN := 0x7fff_ffff_ffff_ffff

  // ---------- What the passes do ----------

  predicate Writes(r: Rec) { r.kind == Insert || r.kind == Update || r.kind == Delete }

  predicate Ends(r: Rec) { r.kind == Commit || r.kind == Abort }

  function Redo(s: Store, r: Rec): Store {
    match r.kind
    case Insert => s[r.key := r.newValue]
    case Update => s[r.key := r.newValue]
    case Delete => s - {r.key}
    case _ => s
  }

  function Undo(s: Store, r: Rec): Store {
    match r.kind
    case Insert => s - {r.key}
    case Update => s[r.key := r.oldValue]
    case Delete => s[r.key := r.oldValue]
    case _ => s
  }

  // Replay a log without the records of the skipped transactions.
  function Replay(s: Store, log: seq<Rec>, skipped: set<int>): Store {
    if log == [] then s else
    var s' := Replay(s, log[..|log| - 1], skipped);
    if log[|log| - 1].txn in skipped then s' else Redo(s', log[|log| - 1])
  }

  // Undo the records of the losers from the end down to index i.
  function UndoFrom(s: Store, log: seq<Rec>, losers: set<int>, i: nat): Store
    requires i <= |log|
    decreases |log| - i
  {
    if i == |log| then s else
    var s' := UndoFrom(s, log, losers, i + 1);
    if log[i].txn in losers then Undo(s', log[i]) else s'
  }

  predicate Ended(log: seq<Rec>, txn: int) {
    exists i :: 0 <= i < |log| && log[i].txn == txn && Ends(log[i])
  }

  // The first transactions of the log, up to a limit, in order of appearance.
  function Tracked(log: seq<Rec>, limit: nat): seq<int> {
    if log == [] then [] else
    var ids := Tracked(log[..|log| - 1], limit);
    var t := log[|log| - 1].txn;
    Track(ids, t, limit)
  }

  function Track(ids: seq<int>, t: int, limit: nat): seq<int> {
    if t in ids || t <= 0 || |ids| >= limit then ids else ids + [t]
  }

  ghost function Losers(log: seq<Rec>, limit: nat): set<int> {
    set t | t in Tracked(log, limit) && !Ended(log, t)
  }

  // All transactions of the log that never ended.
  ghost function Unended(log: seq<Rec>): set<int> {
    set i | 0 <= i < |log| && log[i].txn > 0 && !Ended(log, log[i].txn) :: log[i].txn
  }

  ghost function Transactions(log: seq<Rec>): set<int> {
    set i | 0 <= i < |log| && log[i].txn > 0 :: log[i].txn
  }

  lemma {:induction false} TrackedAll(log: seq<Rec>, limit: nat)
    requires |Transactions(log)| <= limit
    ensures forall t :: t in Tracked(log, limit) <==> t in Transactions(log)
    ensures |Tracked(log, limit)| == |Transactions(log)|
  {
    if log != [] {
      var rest, t := log[..|log| - 1], log[|log| - 1].txn;
      assert Transactions(log) == Transactions(rest) + if t > 0 then {t} else {};
      assert |Transactions(log)| >= |Transactions(rest)| by {
        assert |Transactions(log)| == |Transactions(rest)| + |Transactions(log) - Transactions(rest)|;
      }
      TrackedAll(rest, limit);
    }
  }

  // With no more transactions than the loser table has entries, the analysis
  // finds exactly the transactions that never ended.
  lemma {:induction false} LosersAreUnended(log: seq<Rec>)
    requires |Transactions(log)| <= MAX_LOSERS
    ensures Losers(log, MAX_LOSERS) == Unended(log)
  {
    TrackedAll(log, MAX_LOSERS);
  }

  // ---------- One key at a time ----------

  function Look(s: Store, k: Key): Option<string> { if k in s then Some(s[k]) else None }

  lemma {:induction false} SameLook(a: Store, b: Store)
    requires forall k :: Look(a, k) == Look(b, k)
    ensures a == b
  {
    forall k ensures k in a <==> k in b {
      assert Look(a, k) == Look(b, k);
    }
    forall k | k in a ensures a[k] == b[k] {
      assert Look(a, k) == Look(b, k);
    }
  }

  predicate WritesKey(r: Rec, k: Key) { Writes(r) && r.key == k }

  // The log has true old values when each record describes the state it met.
  ghost predicate TrueOld(s: Store, log: seq<Rec>) {
    forall i :: 0 <= i < |log| && Writes(log[i]) ==> Look(Replay(s, log[..i], {}), log[i].key) == Before(log[i])
  }

  function Before(r: Rec): Option<string> { if r.kind == Insert then None else Some(r.oldValue) }

  function After(r: Rec): Option<string> { if r.kind == Delete then None else Some(r.newValue) }

  // The first record from index i on by which a loser writes k, or the end.
  ghost function FirstLoserWrite(log: seq<Rec>, losers: set<int>, k: Key, i: nat): (r: nat)
    requires i <= |log|
    ensures i <= r <= |log|
    ensures r < |log| ==> log[r].txn in losers && WritesKey(log[r], k)
    ensures forall j :: i <= j < r ==> !(log[j].txn in losers && WritesKey(log[j], k))
    decreases |log| - i
  {
    if i == |log| || (log[i].txn in losers && WritesKey(log[i], k)) then i
    else FirstLoserWrite(log, losers, k, i + 1)
  }

  lemma {:induction false} UndoLook(s: Store, r: Rec, k: Key)
    ensures Look(Undo(s, r), k) == if WritesKey(r, k) then Before(r) else Look(s, k)
  {
  }

  // Undoing puts every key written by a loser back to what it was before the
  // first such write, and leaves the other keys alone.
  lemma {:induction false} UndoRestores(s: Store, log: seq<Rec>, losers: set<int>, k: Key, i: nat)
    requires i <= |log| && TrueOld(s, log)
    ensures Look(UndoFrom(Replay(s, log, {}), log, losers, i), k)
            == Look(Replay(s, log[..FirstLoserWrite(log, losers, k, i)], {}), k)
    decreases |log| - i
  {
    if i == |log| {
      assert log[..|log|] == log;
    } else {
      UndoRestores(s, log, losers, k, i + 1);
      UndoLook(UndoFrom(Replay(s, log, {}), log, losers, i + 1), log[i], k);
    }
  }

  // A replay that applies no write to k leaves k alone.
  lemma {:induction false} ReplayLeaves(s: Store, log: seq<Rec>, skipped: set<int>, k: Key, i: nat)
    requires i <= |log| && forall j :: i <= j < |log| && WritesKey(log[j], k) ==> log[j].txn in skipped
    ensures Look(Replay(s, log, skipped), k) == Look(Replay(s, log[..i], skipped), k)
    decreases |log|
  {
    if i == |log| {
      assert log[..i] == log;
    } else {
      var rest := log[..|log| - 1];
      ReplayLeaves(s, rest, skipped, k, i);
      assert rest[..i] == log[..i];
    }
  }

  // Skipping transactions that do not write k makes no difference to k.
  lemma {:induction false} ReplayAgrees(s: Store, log: seq<Rec>, skipped: set<int>, k: Key)
    requires forall j :: 0 <= j < |log| && WritesKey(log[j], k) ==> log[j].txn !in skipped
    ensures Look(Replay(s, log, skipped), k) == Look(Replay(s, log, {}), k)
  {
    if log != [] {
      ReplayAgrees(s, log[..|log| - 1], skipped, k);
    }
  }

  // ---------- Recovery ----------

  ghost function Recovered(s: Store, log: seq<Rec>, losers: set<int>): Store {
    UndoFrom(Replay(s, log, {}), log, losers, 0)
  }

  // No transaction that ends writes over a key after a loser wrote it.
  ghost predicate LosersLast(log: seq<Rec>, losers: set<int>) {
    forall i, j, k :: 0 <= i < j < |log| && WritesKey(log[i], k) && WritesKey(log[j], k) && log[i].txn in losers
                      ==> log[j].txn in losers
  }

  // The last record from index i on by which another transaction writes k, or -1.
  ghost function LastKept(log: seq<Rec>, losers: set<int>, k: Key, i: nat): (r: int)
    requires i <= |log|
    ensures r == -1 || (i <= r < |log| && log[r].txn !in losers && WritesKey(log[r], k))
    ensures forall j :: i <= j < |log| && j > r && WritesKey(log[j], k) ==> log[j].txn in losers
    decreases |log|
  {
    if i == |log| then -1
    else if log[|log| - 1].txn !in losers && WritesKey(log[|log| - 1], k) then |log| - 1
    else LastKept(log[..|log| - 1], losers, k, i)
  }

  // A key ends right: no loser wrote it, or nobody else wrote it after the first
  // loser, or the last to do so left the value that loser found.
  ghost predicate KeyRight(log: seq<Rec>, losers: set<int>, k: Key) {
    var i := FirstLoserWrite(log, losers, k, 0);
    i < |log| ==> var j := LastKept(log, losers, k, i); j >= 0 ==> After(log[j]) == Before(log[i])
  }

  // What the replay without the losers leaves in a key that a loser wrote.
  lemma {:induction false} KeptValue(s: Store, log: seq<Rec>, losers: set<int>, k: Key, i: nat, j: int)
    requires i == FirstLoserWrite(log, losers, k, 0) < |log| && j == LastKept(log, losers, k, i)
    ensures Look(Replay(s, log, losers), k) == if j >= 0 then After(log[j]) else Look(Replay(s, log[..i], {}), k)
  {
    if j >= 0 {
      ReplayLeaves(s, log, losers, k, j + 1);
      assert log[..j + 1][..j] == log[..j];
    } else {
      ReplayLeaves(s, log, losers, k, i);
      ReplayAgrees(s, log[..i], losers, k);
    }
  }

  lemma {:induction false} KeyExact(s: Store, log: seq<Rec>, losers: set<int>, k: Key)
    requires TrueOld(s, log)
    ensures Look(Recovered(s, log, losers), k) == Look(Replay(s, log, losers), k) <==> KeyRight(log, losers, k)
  {
    var i := FirstLoserWrite(log, losers, k, 0);
    UndoRestores(s, log, losers, k, 0);
    if i == |log| {
      assert log[..|log|] == log;
      ReplayAgrees(s, log, losers, k);
    } else {
      KeptValue(s, log, losers, k, i, LastKept(log, losers, k, i));
    }
  }

  // Exactly when recovery replays only the other transactions, by the records.
  lemma {:induction false} RecoveryExact(s: Store, log: seq<Rec>, losers: set<int>)
    requires TrueOld(s, log)
    ensures Recovered(s, log, losers) == Replay(s, log, losers) <==> forall k :: KeyRight(log, losers, k)
  {
    var u, v := Recovered(s, log, losers), Replay(s, log, losers);
    forall k ensures Look(u, k) == Look(v, k) <==> KeyRight(log, losers, k) {
      KeyExact(s, log, losers, k);
    }
    if forall k :: KeyRight(log, losers, k) {
      SameLook(u, v);
    }
  }

  lemma {:induction false} LosersLastSuffices(s: Store, log: seq<Rec>, losers: set<int>)
    requires TrueOld(s, log) && LosersLast(log, losers)
    ensures Recovered(s, log, losers) == Replay(s, log, losers)
  {
    forall k ensures KeyRight(log, losers, k) {
      var i := FirstLoserWrite(log, losers, k, 0);
      if i < |log| {
        assert WritesKey(log[i], k) && log[i].txn in losers;
      }
    }
    RecoveryExact(s, log, losers);
  }

  // ---------- Recovery whatever the values ----------

  // Two logs of the same transactions, keys and kinds of record.
  ghost predicate SameShape(a: seq<Rec>, b: seq<Rec>) {
    |a| == |b| && forall i :: 0 <= i < |a| ==> a[i].kind == b[i].kind && a[i].txn == b[i].txn && a[i].key == b[i].key
  }

  // Losers write last, except that a key a loser inserted may end deleted.
  ghost predicate ShapeSafe(log: seq<Rec>, losers: set<int>) {
    forall k :: KeySafe(log, losers, k)
  }

  ghost predicate KeySafe(log: seq<Rec>, losers: set<int>, k: Key) {
    var i := FirstLoserWrite(log, losers, k, 0);
    i < |log| ==>
      var j := LastKept(log, losers, k, i); j >= 0 ==> log[j].kind == Delete && log[i].kind == Insert
  }

  lemma {:induction false} LastKeptIs(log: seq<Rec>, losers: set<int>, k: Key, i: nat, j: int)
    requires i <= |log| && -1 <= j < |log|
    requires j >= 0 ==> i <= j && log[j].txn !in losers && WritesKey(log[j], k)
    requires forall m :: i <= m < |log| && m > j && WritesKey(log[m], k) ==> log[m].txn in losers
    ensures LastKept(log, losers, k, i) == j
  {
    var r := LastKept(log, losers, k, i);
    assert r >= 0 ==> WritesKey(log[r], k);
    assert j >= 0 ==> WritesKey(log[j], k);
  }

  lemma {:induction false} SameShapeSame(a: seq<Rec>, b: seq<Rec>, losers: set<int>, k: Key)
    requires SameShape(a, b)
    ensures FirstLoserWrite(a, losers, k, 0) == FirstLoserWrite(b, losers, k, 0)
    ensures var i := FirstLoserWrite(a, losers, k, 0); LastKept(a, losers, k, i) == LastKept(b, losers, k, i)
  {
    var i, i' := FirstLoserWrite(a, losers, k, 0), FirstLoserWrite(b, losers, k, 0);
    assert i < i' ==> !(b[i].txn in losers && WritesKey(b[i], k));
    assert i' < i ==> !(a[i'].txn in losers && WritesKey(a[i'], k));
    LastKeptIs(a, losers, k, i, LastKept(b, losers, k, i));
  }

  // The next record from index i on that writes k, or the end.
  ghost function NextWrite(log: seq<Rec>, k: Key, i: nat): (r: nat)
    requires i <= |log|
    ensures i <= r <= |log| && (r < |log| ==> WritesKey(log[r], k))
    ensures forall j :: i <= j < r ==> !WritesKey(log[j], k)
    decreases |log| - i
  {
    if i == |log| || WritesKey(log[i], k) then i else NextWrite(log, k, i + 1)
  }

  // The log with another value written by record j, and found by the next write.
  ghost function Rewritten(log: seq<Rec>, j: nat, v: string): seq<Rec>
    requires j < |log|
  {
    var m := NextWrite(log, log[j].key, j + 1);
    var log' := log[j := log[j].(newValue := v)];
    if m < |log| then log'[m := log[m].(oldValue := v)] else log'
  }

  // What rewriting does to record x: the same keys, the same value but for record
  // j, and the new value found by the next write m.
  ghost predicate RewrittenAt(log: seq<Rec>, j: nat, m: nat, v: string, log': seq<Rec>, x: nat)
    requires j < |log| == |log'| && x < |log|
  {
    var r, r' := log[x], log'[x];
    && r'.kind == r.kind && r'.txn == r.txn && r'.key == r.key
    && After(r') == (if x == j then Some(v) else After(r))
    && Before(r') == (if x == m && r.kind != Insert then Some(v) else Before(r))
    && (WritesKey(r, log[j].key) ==> x <= j || x >= m)
  }

  ghost predicate Rewrites(log: seq<Rec>, j: nat, m: nat, v: string, log': seq<Rec>) {
    && j < m <= |log| == |log'| && WritesKey(log[j], log[j].key)
    && (m < |log| ==> WritesKey(log[m], log[j].key))
    && forall x :: 0 <= x < |log| ==> RewrittenAt(log, j, m, v, log', x)
  }

  lemma {:induction false} RewrittenRewrites(log: seq<Rec>, j: nat, v: string)
    requires j < |log| && WritesKey(log[j], log[j].key) && log[j].kind != Delete
    ensures Rewrites(log, j, NextWrite(log, log[j].key, j + 1), v, Rewritten(log, j, v))
  {
    var m, log' := NextWrite(log, log[j].key, j + 1), Rewritten(log, j, v);
    forall x | 0 <= x < |log| ensures RewrittenAt(log, j, m, v, log', x) {
      assert x != j && x != m ==> log'[x] == log[x];
      assert x == j ==> log'[x] == log[x].(newValue := v);
      assert x == m ==> log'[x] == log[x].(oldValue := v);
    }
  }

  // The value of a key after the first x records, by the records themselves.
  ghost function ValueAt(s: Store, log: seq<Rec>, x: nat, y: Key): Option<string>
    requires x <= |log|
  {
    if x == 0 then Look(s, y)
    else if WritesKey(log[x - 1], y) then After(log[x - 1])
    else ValueAt(s, log, x - 1, y)
  }

  lemma {:induction false} ValueAtReplay(s: Store, log: seq<Rec>, x: nat, y: Key)
    requires x <= |log|
    ensures Look(Replay(s, log[..x], {}), y) == ValueAt(s, log, x, y)
  {
    if x == 0 {
      assert log[..0] == [];
    } else {
      ValueAtReplay(s, log, x - 1, y);
      assert log[..x][..x - 1] == log[..x - 1];
      RedoLook(Replay(s, log[..x - 1], {}), log[x - 1], y);
    }
  }

  lemma {:induction false} RewrittenValue(s: Store, log: seq<Rec>, j: nat, m: nat, v: string, log': seq<Rec>, x: nat,
                                          y: Key)
    requires Rewrites(log, j, m, v, log') && x <= |log|
    ensures ValueAt(s, log', x, y) == if y == log[j].key && j < x <= m then Some(v) else ValueAt(s, log, x, y)
    decreases x
  {
    if x > 0 {
      RewrittenValue(s, log, j, m, v, log', x - 1, y);
      assert RewrittenAt(log, j, m, v, log', x - 1);
    }
  }

  lemma {:induction false} RedoLook(s: Store, r: Rec, k: Key)
    ensures Look(Redo(s, r), k) == if WritesKey(r, k) then After(r) else Look(s, k)
  {
  }

  // The rewritten log is as true as the old one.
  lemma {:induction false} RewrittenTrue(s: Store, log: seq<Rec>, j: nat, m: nat, v: string, log': seq<Rec>)
    requires TrueOld(s, log) && Rewrites(log, j, m, v, log')
    requires log[j].kind != Delete && m == NextWrite(log, log[j].key, j + 1)
    ensures SameShape(log, log') && TrueOld(s, log')
  {
    forall x | 0 <= x < |log|
      ensures log[x].kind == log'[x].kind && log[x].txn == log'[x].txn && log[x].key == log'[x].key
    {
      assert RewrittenAt(log, j, m, v, log', x);
    }
    forall x | 0 <= x < |log'| && Writes(log'[x])
      ensures Look(Replay(s, log'[..x], {}), log'[x].key) == Before(log'[x])
    {
      assert RewrittenAt(log, j, m, v, log', x);
      RewrittenValue(s, log, j, m, v, log', x, log'[x].key);
      ValueAtReplay(s, log, x, log'[x].key);
      ValueAtReplay(s, log', x, log'[x].key);
      if x == m {
        FoundAfter(s, log, j, m);
      }
    }
  }

  // The next write finds what record j left.
  lemma {:induction false} FoundAfter(s: Store, log: seq<Rec>, j: nat, m: nat)
    requires TrueOld(s, log) && j < |log| && WritesKey(log[j], log[j].key)
    requires m == NextWrite(log, log[j].key, j + 1) < |log|
    ensures Before(log[m]) == After(log[j])
  {
    var k := log[j].key;
    var prefix := log[..m];
    assert forall x :: j < x < m ==> !WritesKey(prefix[x], k);
    ReplayLeaves(s, prefix, {}, k, j + 1);
    assert prefix[..j + 1] == log[..j + 1] && log[..j + 1][..j] == log[..j];
    RedoLook(Replay(s, log[..j], {}), log[j], k);
  }

  // A log whose shape is not safe has values with which recovery goes wrong.
  lemma {:induction false} UnsafeValues(s: Store, log: seq<Rec>, losers: set<int>, k: Key) returns (log': seq<Rec>)
    requires TrueOld(s, log) && !KeySafe(log, losers, k)
    ensures SameShape(log, log') && TrueOld(s, log') && !KeyRight(log', losers, k)
  {
    var i := FirstLoserWrite(log, losers, k, 0);
    var j := LastKept(log, losers, k, i);
    log' := log;
    if KeyRight(log, losers, k) {
      var v, m := log[j].newValue + "x", NextWrite(log, k, j + 1);
      log' := Rewritten(log, j, v);
      RewrittenRewrites(log, j, v);
      RewrittenTrue(s, log, j, m, v, log');
      SameShapeSame(log, log', losers, k);
      assert RewrittenAt(log, j, m, v, log', i) && RewrittenAt(log, j, m, v, log', j);
      assert After(log'[j]) == Some(v) != Some(log[j].newValue);
    }
  }

  // Recovery is right for all values a shape of log can carry if and only if the
  // shape is safe.
  lemma {:induction false} RecoveryForAllValues(s: Store, log: seq<Rec>, losers: set<int>)
    requires TrueOld(s, log)
    ensures (forall log' :: SameShape(log, log') && TrueOld(s, log') ==>
                              Recovered(s, log', losers) == Replay(s, log', losers)) <==>
            ShapeSafe(log, losers)
  {
    if ShapeSafe(log, losers) {
      forall log' | SameShape(log, log') && TrueOld(s, log')
        ensures Recovered(s, log', losers) == Replay(s, log', losers)
      {
        forall k ensures KeyRight(log', losers, k) {
          assert KeySafe(log, losers, k);
          SameShapeSame(log, log', losers, k);
        }
        RecoveryExact(s, log', losers);
      }
    } else {
      var k :| !KeySafe(log, losers, k);
      var log' := UnsafeValues(s, log, losers, k);
      RecoveryExact(s, log', losers);
    }
  }

  // Losers writing last is enough for any values, but not needed: an insert that
  // another transaction deletes recovers too.
  lemma {:induction false} LosersLastIsSafe(log: seq<Rec>, losers: set<int>)
    requires LosersLast(log, losers)
    ensures ShapeSafe(log, losers)
  {
    forall k ensures KeySafe(log, losers, k) {
      var i := FirstLoserWrite(log, losers, k, 0);
      if i < |log| {
        assert WritesKey(log[i], k) && log[i].txn in losers;
      }
    }
  }

  lemma {:induction false} DeletedInsertIsSafe() returns (log: seq<Rec>)
    ensures TrueOld(map[], log) && !LosersLast(log, {1}) && ShapeSafe(log, {1})
  {
    var a, b := Rec(1, 0, Insert, 1, "k", "", "a", 0), Rec(2, 1, Delete, 2, "k", "a", "", 0);
    log := [a, b];
    assert log[..0] == [] && log[..1] == [a] && [a][..0] == [];
    assert Replay(map[], [a], {}) == map["k" := "a"];
    assert WritesKey(log[0], "k") && WritesKey(log[1], "k");
    forall k ensures KeySafe(log, {1}, k) {
      var i := FirstLoserWrite(log, {1}, k, 0);
      assert i < |log| ==> i == 0;
    }
  }

  // ---------- Strict logs ----------

  // Strict logging: a record that writes a key last written by another
  // transaction comes after that transaction's COMMIT or ABORT record.
  ghost predicate Strict(log: seq<Rec>) {
    forall i, j, k :: 0 <= i < j < |log| && LastWriteBefore(log, i, j, k) && log[i].txn != log[j].txn ==>
                        Ended(log[..j], log[i].txn)
  }

  // Records i and j write k and nothing between them does.
  ghost predicate LastWriteBefore(log: seq<Rec>, i: nat, j: nat, k: Key)
    requires i < j < |log|
  {
    WritesKey(log[i], k) && WritesKey(log[j], k) && forall m :: i < m < j ==> !WritesKey(log[m], k)
  }

  lemma {:induction false} StrictLosers(log: seq<Rec>, i: nat, j: nat, k: Key)
    requires Strict(log) && i < j < |log| && WritesKey(log[i], k) && WritesKey(log[j], k)
    requires log[i].txn in Unended(log)
    ensures log[j].txn in Unended(log)
    decreases j - i
  {
    var p := j - 1;
    while p > i && !WritesKey(log[p], k)
      invariant i <= p < j
      invariant forall m :: p < m < j ==> !WritesKey(log[m], k)
    {
      p := p - 1;
    }
    if p > i {
      StrictLosers(log, i, p, k);
    }
    assert LastWriteBefore(log, p, j, k);
    EndedGrows(log, j, log[p].txn);
  }

  lemma {:induction false} EndedGrows(log: seq<Rec>, j: nat, txn: int)
    requires j <= |log|
    ensures Ended(log[..j], txn) ==> Ended(log, txn)
  {
    if Ended(log[..j], txn) {
      var m :| 0 <= m < j && log[..j][m].txn == txn && Ends(log[..j][m]);
      assert log[m].txn == txn && Ends(log[m]);
    }
  }

  // Recovery correctness: a strict log with true old values and at most 64
  // transactions, recovered from the state before the checkpoint, ends in the
  // replay of exactly the transactions that have a COMMIT or ABORT record.
  lemma {:induction false} RecoveryCorrect(s: Store, log: seq<Rec>)
    requires TrueOld(s, log) && Strict(log) && |Transactions(log)| <= MAX_LOSERS
    ensures Recovered(s, log, Losers(log, MAX_LOSERS)) == Replay(s, log, Unended(log))
  {
    LosersAreUnended(log);
    forall i, j, k | 0 <= i < j < |log| && WritesKey(log[i], k) && WritesKey(log[j], k) && log[i].txn in Unended(log)
      ensures log[j].txn in Unended(log)
    {
      StrictLosers(log, i, j, k);
    }
    LosersLastSuffices(s, log, Unended(log));
  }

  ghost predicate RecoversCorrectly(s: Store, log: seq<Rec>, recovered: Store) {
    TrueOld(s, log) && Strict(log) && |Transactions(log)| <= MAX_LOSERS ==> recovered == Replay(s, log, Unended(log))
  }

  lemma {:induction false} RecoveryOutcome(s: Store, log: seq<Rec>)
    ensures RecoversCorrectly(s, log, Recovered(s, log, Losers(log, MAX_LOSERS)))
  {
    if TrueOld(s, log) && Strict(log) && |Transactions(log)| <= MAX_LOSERS {
      RecoveryCorrect(s, log);
    }
  }

  // A committed overwrite of a key last written by a transaction that never
  // ended is lost by recovery.
  lemma {:induction false} OverwrittenLoserBreaksRecovery() returns (log: seq<Rec>)
    ensures TrueOld(map[], log) && |Transactions(log)| <= MAX_LOSERS
    ensures Recovered(map[], log, Unended(log)) != Replay(map[], log, Unended(log))
  {
    var a, b := Rec(1, 0, Insert, 1, "k", "", "a", 0), Rec(2, 1, Update, 2, "k", "a", "b", 0);
    var c := Rec(3, 2, Commit, 2, "", "", "", 0);
    log := [a, b, c];
    assert log[..0] == [] && log[..1] == [a] && log[..2] == [a, b] && log[..3] == log;
    assert [a][..0] == [] && [a, b][..1] == [a] && log[..|log| - 1] == [a, b];
    assert Transactions(log) == {1, 2} by {
      assert log[0].txn == 1 && log[1].txn == 2 && log[2].txn == 2;
    }
    assert Ends(log[2]) && log[2].txn == 2 && Ended(log, 2);
    assert !Ended(log, 1);
    assert log[0].txn in Unended(log) && 2 !in Unended(log);
    assert Replay(map[], [a], {}) == map["k" := "a"];
    assert Replay(map[], [a, b], {}) == map["k" := "b"];
    var l := Unended(log);
    assert Replay(map[], [a], l) == map[];
    assert Replay(map[], [a, b], l) == map["k" := "b"];
    assert Replay(map[], log, l) == map["k" := "b"];
    UndoRestores(map[], log, l, "k", 0);
    assert Look(Recovered(map[], log, l), "k") == None;
  }

  // ---------- The code ----------

  // Redo the records among the first k with a sequence number from start on.
  function RedoFrom(s: Store, log: seq<Rec>, start: nat, k: nat): Store
    requires k <= |log|
  {
    if k == 0 then s else
    var s' := RedoFrom(s, log, start, k - 1);
    if log[k - 1].lsn < start then s' else Redo(s', log[k - 1])
  }

  ghost predicate Numbered(log: seq<Rec>) { forall i :: 0 <= i < |log| ==> log[i].lsn == i + 1 }

  // In a log that has not wrapped these are the records from a position on.
  lemma {:induction false} RedoIsReplay(s: Store, log: seq<Rec>, start: nat, k: nat)
    requires Numbered(log) && 1 <= start <= k + 1 && k <= |log|
    ensures RedoFrom(s, log, start, k) == Replay(s, log[start - 1..k], {})
  {
    if start == k + 1 {
      NothingBefore(s, log, start, k);
      assert log[k..k] == [];
    } else {
      RedoIsReplay(s, log, start, k - 1);
      assert log[start - 1..k][..k - start] == log[start - 1..k - 1];
    }
  }

  lemma {:induction false} NothingBefore(s: Store, log: seq<Rec>, start: nat, k: nat)
    requires Numbered(log) && k < start && k <= |log|
    ensures RedoFrom(s, log, start, k) == s
  {
    if k > 0 {
      NothingBefore(s, log, start, k - 1);
    }
  }

  lemma {:induction false} RedoRest(s: Store, log: seq<Rec>, start: nat)
    requires Numbered(log) && 1 <= start <= |log| + 1
    ensures RedoFrom(Replay(s, log[..start - 1], {}), log, start, |log|) == Replay(s, log, {})
  {
    var a, b := log[..start - 1], log[start - 1..|log|];
    RedoIsReplay(Replay(s, a, {}), log, start, |log|);
    ReplaySplit(s, a, b, {});
    assert a + b == log;
  }

  // How many of the first k records the redo pass counts.
  function RedoCount(log: seq<Rec>, start: nat, k: nat): nat
    requires k <= |log|
  {
    if k == 0 then 0 else RedoCount(log, start, k - 1) + if log[k - 1].lsn >= start && Writes(log[k - 1]) then 1 else 0
  }

  // How many records from index i on the undo pass counts.
  ghost function UndoCount(log: seq<Rec>, losers: set<int>, i: nat): nat
    requires i <= |log|
    decreases |log| - i
  {
    if i == |log| then 0
    else UndoCount(log, losers, i + 1) + if log[i].txn in losers && Writes(log[i]) then 1 else 0
  }

  lemma {:induction false} CountsOneMore(s: set<nat>, t: set<nat>, x: nat)
    requires x !in t && forall y :: y in s ==> y in t || y == x
    requires t <= s
    ensures |s| == |t| + if x in s then 1 else 0
  {
    if x in s {
      assert s == t + {x};
    } else {
      assert s == t;
    }
  }

  // The counts are those of the data records from the start on, and of the losers.
  lemma {:induction false} RedoneExactly(log: seq<Rec>, start: nat, k: nat, s: set<nat>)
    requires k <= |log| && s == set i: nat | i < k && log[i].lsn >= start && Writes(log[i])
    ensures RedoCount(log, start, k) == |s|
  {
    if k == 0 {
      assert s == {};
    } else {
      var t := set i: nat | i < k - 1 && log[i].lsn >= start && Writes(log[i]);
      RedoneExactly(log, start, k - 1, t);
      CountsOneMore(s, t, k - 1);
    }
  }

  lemma {:induction false} UndoneExactly(log: seq<Rec>, losers: set<int>, i: nat, s: set<nat>)
    requires i <= |log| && s == set j: nat | i <= j < |log| && log[j].txn in losers && Writes(log[j])
    ensures UndoCount(log, losers, i) == |s|
    decreases |log| - i
  {
    if i == |log| {
      assert s == {};
    } else {
      var t := set j: nat | i + 1 <= j < |log| && log[j].txn in losers && Writes(log[j]);
      UndoneExactly(log, losers, i + 1, t);
      CountsOneMore(s, t, i);
    }
  }

  // The tracked transactions that never ended, in order of appearance.
  ghost function OpenOnes(log: seq<Rec>, ids: seq<int>): seq<int> {
    if ids == [] then [] else
    var t := ids[|ids| - 1];
    OpenOnes(log, ids[..|ids| - 1]) + if Ended(log, t) then [] else [t]
  }

  lemma {:induction false} OpenOnesMembers(log: seq<Rec>, ids: seq<int>)
    ensures forall t :: t in OpenOnes(log, ids) <==> t in ids && !Ended(log, t)
  {
    if ids != [] {
      OpenOnesMembers(log, ids[..|ids| - 1]);
      assert ids == ids[..|ids| - 1] + [ids[|ids| - 1]];
    }
  }

  lemma {:induction false} OpenLosers(log: seq<Rec>, limit: nat)
    ensures (set t | t in OpenOnes(log, Tracked(log, limit))) == Losers(log, limit)
  {
    var ids := Tracked(log, limit);
    OpenOnesMembers(log, ids);
    forall t ensures t in OpenOnes(log, ids) <==> t in Losers(log, limit) {
    }
  }

  // Record i belongs to a tracked transaction that has not ended by then.
  ghost predicate OpenAt(log: seq<Rec>, limit: nat, i: nat) {
    i < |log| && log[i].txn in Tracked(log[..i + 1], limit) && !Ended(log[..i + 1], log[i].txn)
  }

  // The lowest sequence number of such a record among the first k.
  ghost predicate LowestOpen(log: seq<Rec>, limit: nat, k: nat, first: nat)
    requires k <= |log|
  {
    && (forall i :: 0 <= i < k && OpenAt(log, limit, i) ==> first <= log[i].lsn)
    && first <= MAX_LSN && (first < MAX_LSN ==> exists i :: 0 <= i < k && OpenAt(log, limit, i) && log[i].lsn == first)
  }

  lemma {:induction false} ReplaySplit(s: Store, a: seq<Rec>, b: seq<Rec>, skipped: set<int>)
    ensures Replay(Replay(s, a, skipped), b, skipped) == Replay(s, a + b, skipped)
  {
    if b == [] {
      assert a + b == a;
    } else {
      ReplaySplit(s, a, b[..|b| - 1], skipped);
      assert (a + b)[..|a + b| - 1] == a + b[..|b| - 1];
    }
  }

  // The analysis tables after scanning a log.
  ghost predicate Scanned(log: seq<Rec>, limit: nat, ids: seq<int>, ended: seq<bool>) {
    && ids == Tracked(log, limit) && |ended| == |ids| <= limit
    && (forall j :: 0 <= j < |ids| ==> ids[j] > 0 && ended[j] == Ended(log, ids[j]))
    && (forall j, k :: 0 <= j < k < |ids| ==> ids[j] != ids[k])
    && (|ids| < limit ==> forall j :: 0 <= j < |log| && log[j].txn > 0 ==> log[j].txn in ids)
  }

  ghost predicate RecordScanned(limit: nat, r: Rec, ids: seq<int>, ended: seq<bool>, ids': seq<int>, ended': seq<bool>)
    requires |ended| == |ids|
  {
    && ids' == Track(ids, r.txn, limit) && |ended'| == |ids'|
    && (forall j :: 0 <= j < |ids| ==> ended'[j] == (ended[j] || (Ends(r) && ids[j] == r.txn)))
    && (|ids'| > |ids| ==> ended'[|ids|] == Ends(r))
  }

  lemma {:induction false} ScanStep(log: seq<Rec>, limit: nat, r: Rec, ids: seq<int>, ended: seq<bool>,
                                    ids': seq<int>, ended': seq<bool>)
    requires Scanned(log, limit, ids, ended) && RecordScanned(limit, r, ids, ended, ids', ended')
    ensures Scanned(log + [r], limit, ids', ended')
  {
    var log' := log + [r];
    assert log'[..|log|] == log;
    assert Tracked(log', limit) == ids';
    assert forall j :: 0 <= j < |ids| ==> ids'[j] == ids[j];
    EndedSnoc(log, r);
    forall j | 0 <= j < |ids'| ensures ids'[j] > 0 && ended'[j] == Ended(log', ids'[j]) {
      if j == |ids| {
        assert !Ended(log, r.txn);
      }
    }
    if |ids'| < limit {
      forall j | 0 <= j < |log'| && log'[j].txn > 0 ensures log'[j].txn in ids' {
        if j < |log| {
          assert log'[j] == log[j];
        }
      }
    }
  }

  // The store behind the recovery callbacks; no value means deletion.
  class Database {
    var data: Store

    method Set(key: Key, value: Option<string>)
      modifies this
      ensures data == if value.Some? then old(data)[key := value.value] else old(data) - {key}
    {
      data := if value.Some? then data[key := value.value] else data - {key};
    }
  }

  class WalManager {
    var records: seq<Rec>
    var nextLsn: nat
    var flushedLsn: nat
    var checkpointLsn: nat
    var writePos: nat
    var flushPos: nat
    var circular: bool

    ghost predicate Valid()
      reads this
    {
      |records| <= MAX_RECORDS && writePos < MAX_RECORDS && nextLsn > 0
    }

    // The log has not wrapped: log sequence numbers are positions.
    ghost predicate Unwrapped()
      reads this
    {
      Valid() && nextLsn == |records| + 1 && checkpointLsn <= |records| && !circular && Numbered(records)
    }

    constructor ()
      ensures Unwrapped() && records == [] && checkpointLsn == 0 && flushedLsn == 0
    {
      records, nextLsn, flushedLsn, checkpointLsn := [], 1, 0, 0;
      writePos, flushPos, circular := 0, 0, false;
    }

    // A full log starts over at its first slot.
    method Append(rec: Rec) returns (lsn: nat)
      requires Valid()
      modifies this
      ensures Valid() && lsn == old(nextLsn) && nextLsn == lsn + 1
      ensures checkpointLsn == old(checkpointLsn) && flushedLsn == old(flushedLsn) && flushPos == old(flushPos)
      ensures |old(records)| < MAX_RECORDS ==>
                && circular == old(circular) && writePos == |old(records)|
                && var prev := if old(records) == [] then 0 else old(records)[|old(records)| - 1].lsn;
                   records == old(records) + [rec.(lsn := lsn, prevLsn := prev)]
      ensures |old(records)| == MAX_RECORDS ==>
                && circular
                && var at := if old(circular) then old(writePos) else 0;
                   && writePos == (at + 1) % MAX_RECORDS
                   && records == old(records)[at := rec.(lsn := lsn, prevLsn := old(records)[at].lsn)]
      ensures old(Unwrapped()) && |old(records)| < MAX_RECORDS ==> Unwrapped()
    {
      if |records| >= MAX_RECORDS && !circular {
        circular := true;
        writePos := 0;
      }
      lsn := nextLsn;
      if |records| >= MAX_RECORDS && circular {
        records := records[writePos := rec.(lsn := lsn, prevLsn := records[writePos].lsn)];
        writePos := (writePos + 1) % MAX_RECORDS;
      } else {
        var prev := if |records| > 0 then records[|records| - 1].lsn else 0;
        writePos := |records|;
        records := records + [rec.(lsn := lsn, prevLsn := prev)];
      }
      nextLsn := nextLsn + 1;
    }

    // A checkpoint needs a free slot: the source writes at the end of the array.
    method WriteCheckpoint(now: int)
      requires Valid() && |records| < MAX_RECORDS
      modifies this`records, this`checkpointLsn, this`nextLsn
      ensures Valid() && checkpointLsn == old(nextLsn) && nextLsn == old(nextLsn) + 1
      ensures records == old(records) + [Rec(old(nextLsn), old(checkpointLsn), Checkpoint, -1, "", "", "", now)]
      ensures old(Unwrapped()) ==> Unwrapped()
    {
      records := records + [Rec(nextLsn, checkpointLsn, Checkpoint, -1, "", "", "", now)];
      checkpointLsn := nextLsn;
      nextLsn := nextLsn + 1;
    }

    method Flush()
      requires Valid()
      modifies this`flushedLsn, this`flushPos
      ensures old(flushedLsn) <= nextLsn - 1 ==> flushedLsn == nextLsn - 1
      ensures flushPos == writePos
    {
      if writePos == flushPos && flushedLsn >= nextLsn - 1 {
        return;
      }
      flushedLsn := nextLsn - 1;
      flushPos := writePos;
    }

    method RedoPass(db: Database, start: nat) returns (redone: nat)
      modifies db
      ensures db.data == RedoFrom(old(db.data), records, start, |records|)
      ensures redone == RedoCount(records, start, |records|)
    {
      redone := 0;
      ghost var s := db.data;
      var i := 0;
      while i < |records|
        invariant 0 <= i <= |records|
        invariant db.data == RedoFrom(s, records, start, i) && redone == RedoCount(records, start, i)
      {
        var rec := records[i];
        if rec.lsn >= start {
          if rec.kind == Insert || rec.kind == Update {
            db.Set(rec.key, Some(rec.newValue));
            redone := redone + 1;
          } else if rec.kind == Delete {
            db.Set(rec.key, None);
            redone := redone + 1;
          }
        }
        i := i + 1;
      }
    }

    method UndoPass(db: Database, losers: seq<int>) returns (undone: nat)
      modifies db
      ensures db.data == UndoFrom(old(db.data), records, (set t | t in losers), 0)
      ensures undone == UndoCount(records, (set t | t in losers), 0)
    {
      undone := 0;
      ghost var s, lost := db.data, set t | t in losers;
      var i := |records|;
      while i > 0
        invariant 0 <= i <= |records|
        invariant db.data == UndoFrom(s, records, lost, i) && undone == UndoCount(records, lost, i)
      {
        i := i - 1;
        var rec := records[i];
        if rec.txn in losers {
          if rec.kind == Insert {
            db.Set(rec.key, None);
            undone := undone + 1;
          } else if rec.kind == Update || rec.kind == Delete {
            db.Set(rec.key, Some(rec.oldValue));
            undone := undone + 1;
          }
        }
      }
    }

    // Which transactions appear, in order, which of them have ended, and the
    // lowest record of one that had not.
    method ScanTransactions(limit: nat) returns (ids: seq<int>, ended: seq<bool>, first: nat)
      ensures Scanned(records, limit, ids, ended) && LowestOpen(records, limit, |records|, first)
    {
      ids, ended, first := [], [], MAX_LSN;
      var i := 0;
      while i < |records|
        invariant 0 <= i <= |records| && Scanned(records[..i], limit, ids, ended)
        invariant LowestOpen(records, limit, i, first)
      {
        assert records[..i + 1] == records[..i] + [records[i]];
        var ids', ended', open := ScanRecord(limit, records[i], ids, ended);
        ScanStep(records[..i], limit, records[i], ids, ended, ids', ended');
        ScannedOpen(records, limit, i, ids', ended', open);
        LowestNext(records, limit, i, first, open);
        ids, ended := ids', ended';
        if open && records[i].lsn < first {
          first := records[i].lsn;
        }
        i := i + 1;
      }
      assert records[..i] == records;
    }

    method ScanRecord(limit: nat, rec: Rec, ids: seq<int>, ended: seq<bool>)
      returns (ids': seq<int>, ended': seq<bool>, open: bool)
      requires |ended| == |ids| && forall j, k :: 0 <= j < k < |ids| ==> ids[j] != ids[k]
      ensures RecordScanned(limit, rec, ids, ended, ids', ended')
      ensures open <==> exists j :: 0 <= j < |ids'| && ids'[j] == rec.txn && !ended'[j]
    {
      ids', ended' := ids, ended;
      var t := 0;
      while t < |ids| && ids[t] != rec.txn
        invariant 0 <= t <= |ids| && rec.txn !in ids[..t]
      {
        t := t + 1;
      }
      assert ids[..t] + ids[t..] == ids;
      if t == |ids| && |ids| < limit && rec.txn > 0 {
        ids', ended' := ids + [rec.txn], ended + [false];
      }
      if t < |ids'| && Ends(rec) {
        ended' := ended'[t := true];
      }
      open := t < |ids'| && !ended'[t];
    }

    method AnalyzePass(limit: nat) returns (losers: seq<int>, first: nat)
      ensures losers == OpenOnes(records, Tracked(records, limit))
      ensures (set t | t in losers) == Losers(records, limit)
      ensures LowestOpen(records, limit, |records|, first)
    {
      var ids, ended;
      ids, ended, first := ScanTransactions(limit);
      losers := CollectOpen(ids, ended);
      OpenLosers(records, limit);
    }

    method CollectOpen(ids: seq<int>, ended: seq<bool>) returns (losers: seq<int>)
      requires |ended| == |ids| && forall j :: 0 <= j < |ids| ==> ended[j] == Ended(records, ids[j])
      ensures losers == OpenOnes(records, ids)
    {
      losers := [];
      var j := 0;
      while j < |ids|
        invariant 0 <= j <= |ids| && losers == OpenOnes(records, ids[..j])
      {
        assert ids[..j + 1][..j] == ids[..j];
        if !ended[j] {
          losers := losers + [ids[j]];
        }
        j := j + 1;
      }
      assert ids[..j] == ids;
    }

    // Recovery of any log; of an unwrapped one, from the state of all records
    // before the checkpoint, it is the recovery of the theorems above.
    method Recover(db: Database, now: int, ghost s: Store)
      requires Valid()
      modifies this, db
      ensures Valid() && var log := old(records);
              var start := if old(checkpointLsn) > 0 then old(checkpointLsn) else 1;
              && db.data == UndoFrom(RedoFrom(old(db.data), log, start, |log|), log, Losers(log, MAX_LOSERS), 0)
              && (old(Unwrapped()) && old(db.data) == Replay(s, log[..start - 1], {}) ==>
                    db.data == Recovered(s, log, Losers(log, MAX_LOSERS)) && RecoversCorrectly(s, log, db.data))
      ensures var losers := OpenOnes(old(records), Tracked(old(records), MAX_LOSERS));
              && nextLsn == old(nextLsn) + |losers|
              && (|old(records)| + |losers| <= MAX_RECORDS ==> AbortsAdded(old(records), records, losers, old(nextLsn)))
      ensures flushPos == writePos && (old(flushedLsn) < old(nextLsn) ==> flushedLsn == nextLsn - 1)
    {
      ghost var log, before := records, db.data;
      var start := if checkpointLsn > 0 then checkpointLsn else 1;
      var _ := RedoPass(db, start);
      var losers, _ := AnalyzePass(MAX_LOSERS);
      if |losers| > 0 {
        var _ := UndoPass(db, losers);
      } else {
        assert Losers(records, MAX_LOSERS) == {};
        NothingToUndo(db.data, records, 0);
      }
      ghost var state := db.data;
      UnwrappedRecovery(s, before, log, checkpointLsn, start, state);
      AppendAborts(losers, now);
      Flush();
      assert db.data == state;
    }

    method AppendAborts(losers: seq<int>, now: int)
      requires Valid()
      modifies this
      ensures Valid() && nextLsn == old(nextLsn) + |losers| && flushedLsn == old(flushedLsn)
      ensures |old(records)| + |losers| <= MAX_RECORDS ==> AbortsAdded(old(records), records, losers, old(nextLsn))
    {
      var i := 0;
      ghost var before, first := records, nextLsn;
      while i < |losers|
        invariant 0 <= i <= |losers| && Valid() && nextLsn == first + i && flushedLsn == old(flushedLsn)
        invariant |before| + |losers| <= MAX_RECORDS ==> AbortsAdded(before, records, losers[..i], first)
      {
        ghost var grown := records;
        var _ := Append(Rec(0, 0, Abort, losers[i], "", "", "", now));
        if |before| + |losers| <= MAX_RECORDS {
          AbortsNext(before, grown, losers, first, i, records);
        }
        i := i + 1;
      }
      assert losers[..i] == losers;
    }
  }

  // One ABORT record per loser at the end of the log.
  ghost predicate AbortsAdded(before: seq<Rec>, after: seq<Rec>, losers: seq<int>, first: nat) {
    && |after| == |before| + |losers| && after[..|before|] == before
    && forall i :: 0 <= i < |losers| ==> AbortOf(after[|before| + i], losers[i], first + i)
  }

  predicate AbortOf(r: Rec, txn: int, lsn: nat) { r.kind == Abort && r.txn == txn && r.lsn == lsn }

  lemma {:induction false} AbortsNext(before: seq<Rec>, now: seq<Rec>, losers: seq<int>, first: nat, i: nat,
                                      after: seq<Rec>)
    requires i < |losers| && AbortsAdded(before, now, losers[..i], first)
    requires |after| == |now| + 1 && after[..|now|] == now && AbortOf(after[|now|], losers[i], first + i)
    ensures AbortsAdded(before, after, losers[..i + 1], first)
  {
    var done := losers[..i + 1];
    assert after[..|before|] == now[..|before|];
    forall x | 0 <= x < |done| ensures AbortOf(after[|before| + x], done[x], first + x) {
      if x < i {
        assert losers[..i][x] == done[x] && after[|before| + x] == now[|before| + x];
      }
    }
  }

  lemma {:induction false} LowestNext(log: seq<Rec>, limit: nat, i: nat, first: nat, open: bool)
    requires i < |log| && LowestOpen(log, limit, i, first) && (open <==> OpenAt(log, limit, i))
    ensures LowestOpen(log, limit, i + 1, if open && log[i].lsn < first then log[i].lsn else first)
  {
  }

  lemma {:induction false} ScannedOpen(log: seq<Rec>, limit: nat, i: nat, ids: seq<int>, ended: seq<bool>, open: bool)
    requires i < |log| && Scanned(log[..i + 1], limit, ids, ended)
    requires open <==> exists j :: 0 <= j < |ids| && ids[j] == log[i].txn && !ended[j]
    ensures open <==> OpenAt(log, limit, i)
  {
    if OpenAt(log, limit, i) {
      var j :| 0 <= j < |ids| && ids[j] == log[i].txn;
      assert ended[j] == Ended(log[..i + 1], ids[j]);
    }
  }

  lemma {:induction false} UnwrappedRecovery(s: Store, before: Store, log: seq<Rec>, checkpoint: nat, start: nat,
                                             state: Store)
    requires start == if checkpoint > 0 then checkpoint else 1
    requires state == UndoFrom(RedoFrom(before, log, start, |log|), log, Losers(log, MAX_LOSERS), 0)
    ensures Numbered(log) && checkpoint <= |log| && before == Replay(s, log[..start - 1], {}) ==>
              state == Recovered(s, log, Losers(log, MAX_LOSERS)) && RecoversCorrectly(s, log, state)
  {
    if Numbered(log) && checkpoint <= |log| && before == Replay(s, log[..start - 1], {}) {
      RedoRest(s, log, start);
      RecoveryOutcome(s, log);
    }
  }

  lemma {:induction false} NothingToUndo(s: Store, log: seq<Rec>, i: nat)
    requires i <= |log|
    ensures UndoFrom(s, log, {}, i) == s
    decreases |log| - i
  {
    if i < |log| {
      NothingToUndo(s, log, i + 1);
    }
  }

  lemma {:induction false} EndedSnoc(log: seq<Rec>, r: Rec)
    ensures forall t :: Ended(log + [r], t) <==> Ended(log, t) || (r.txn == t && Ends(r))
  {
    assert (log + [r])[|log|] == r;
    forall t ensures Ended(log + [r], t) <==> Ended(log, t) || (r.txn == t && Ends(r)) {
      if Ended(log, t) {
        var m :| 0 <= m < |log| && log[m].txn == t && Ends(log[m]);
        assert (log + [r])[m] == log[m];
      }
    }
  }
}
