/**
 * Optimistic concurrency control: versioned reads, buffered writes, validation
 * at commit, and serializability of every interleaving in commit order.
 */
module Occ {
  import opened Options
  import opened KeyedTable

  type Key = string

  datatype Rec = Rec(value: string, version: nat)

  datatype ReadEntry = ReadEntry(key: Key, version: nat)

  datatype Phase = ReadPhase | ValidatePhase | WritePhase | Committed | Aborted

  datatype Txn = Txn(id: int, phase: Phase, startTs: nat, commitTs: nat,
                     readSet: seq<ReadEntry>, writeSet: Table<Key, string>)

  datatype Manager = Manager(records: map<Key, Rec>, version: nat, active: seq<Txn>)

  const MAX_KEYS := 64
  const MAX_TXN := 32

  // ---------- What each call does ----------

  function EnsureRecord(records: map<Key, Rec>, key: Key, init: string): map<Key, Rec> {
    if key in records || |records| >= MAX_KEYS then records else records[key := Rec(init, 0)]
  }

  function Begin(m: Manager, id: int): (Manager, Txn)
    requires |m.active| < MAX_TXN
  {
    var t := Txn(id, ReadPhase, m.version, 0, [], []);
    (Manager(m.records, m.version + 1, m.active + [t]), t)
  }

  datatype ReadResult = Refused | Value(value: string, tracked: bool)

  function ReadValue(m: Manager, t: Txn, key: Key): ReadResult {
    if t.phase != ReadPhase then Refused
    else if Has(t.writeSet, key) then Value(Get(t.writeSet, key), true)
    else
      var records := EnsureRecord(m.records, key, "");
      if key in records then Value(records[key].value, |t.readSet| < MAX_KEYS) else Refused
  }

  function ReadEffect(m: Manager, t: Txn, key: Key): (Manager, Txn) {
    if t.phase != ReadPhase || Has(t.writeSet, key) then (m, t) else
    var records := EnsureRecord(m.records, key, "");
    if key !in records then (m, t) else
    (m.(records := records),
     if |t.readSet| < MAX_KEYS then t.(readSet := t.readSet + [ReadEntry(key, records[key].version)]) else t)
  }

  predicate CanWrite(t: Txn) { t.phase == ReadPhase && |t.writeSet| < MAX_KEYS }

  function WriteEffect(t: Txn, key: Key, value: string): Txn {
    if CanWrite(t) then t.(writeSet := Put(t.writeSet, key, value)) else t
  }

  predicate BackwardValid(records: map<Key, Rec>, readSet: seq<ReadEntry>) {
    forall i :: 0 <= i < |readSet| && readSet[i].key in records ==>
                  records[readSet[i].key].version <= readSet[i].version
  }

  predicate ForwardValid(active: seq<Txn>, t: Txn) {
    forall i, r, k :: 0 <= i < |active| && active[i].id != t.id && active[i].phase != Aborted
                      && 0 <= r < |active[i].readSet| && 0 <= k < |t.writeSet| ==>
                        t.writeSet[k].key != active[i].readSet[r].key
  }

  predicate Valid(m: Manager, t: Txn) { BackwardValid(m.records, t.readSet) && ForwardValid(m.active, t) }

  function Validate(m: Manager, t: Txn): Txn {
    t.(phase := if Valid(m, t) then WritePhase else Aborted)
  }

  // The first k buffered writes go to the records under one version; a write
  // that finds no room for a new record is skipped.
  function Install(records: map<Key, Rec>, writes: Table<Key, string>, k: nat, ts: nat): map<Key, Rec>
    requires k <= |writes|
  {
    if k == 0 then records else
    var records := EnsureRecord(Install(records, writes, k - 1, ts), writes[k - 1].key, writes[k - 1].value);
    if writes[k - 1].key in records then records[writes[k - 1].key := Rec(writes[k - 1].value, ts)] else records
  }

  function Commit(m: Manager, t: Txn): (Manager, Txn) {
    if !Valid(m, t) then (m, t.(phase := Aborted))
    else (Manager(Install(m.records, t.writeSet, |t.writeSet|, m.version), m.version + 1, m.active),
          t.(phase := Committed, commitTs := m.version))
  }

  // ---------- Runs, with the operations each transaction performed ----------

  datatype Op = Read(key: Key, value: string) | Write(key: Key, value: string)

  datatype Handle = Handle(t: Txn, ops: seq<Op>)

  datatype Entered = Entered(ts: nat, ops: seq<Op>)

  datatype World = World(m: Manager, txns: map<nat, Handle>, log: seq<Entered>)

  datatype Step =
    | DoBegin(h: nat, id: int)
    | DoRead(h: nat, key: Key)
    | DoWrite(h: nat, key: Key, value: string)
    | DoValidate(h: nat)
    | DoCommit(h: nat)
    | DoAbort(h: nat)

  function Init(): World { World(Manager(map[], 1, []), map[], []) }

  function Next(w: World, s: Step): World {
    match s
    case DoBegin(h, id) =>
      if |w.m.active| >= MAX_TXN then w else
      var (m, t) := Begin(w.m, id);
      w.(m := m, txns := w.txns[h := Handle(t, [])])
    case DoRead(h, key) =>
      if h !in w.txns then w else
      var e := w.txns[h];
      var (m, t) := ReadEffect(w.m, e.t, key);
      var r := ReadValue(w.m, e.t, key);
      w.(m := m, txns := w.txns[h := Handle(t, if r.Value? then e.ops + [Read(key, r.value)] else e.ops)])
    case DoWrite(h, key, value) =>
      if h !in w.txns then w else
      var e := w.txns[h];
      w.(txns := w.txns[h := Handle(WriteEffect(e.t, key, value),
                                    if CanWrite(e.t) then e.ops + [Write(key, value)] else e.ops)])
    case DoValidate(h) =>
      if h !in w.txns then w else w.(txns := w.txns[h := w.txns[h].(t := Validate(w.m, w.txns[h].t))])
    case DoCommit(h) =>
      if h !in w.txns then w else
      var e := w.txns[h];
      var (m, t) := Commit(w.m, e.t);
      World(m, w.txns[h := e.(t := t)], if Valid(w.m, e.t) then w.log + [Entered(w.m.version, e.ops)] else w.log)
    case DoAbort(h) =>
      if h !in w.txns then w else w.(txns := w.txns[h := w.txns[h].(t := w.txns[h].t.(phase := Aborted))])
  }

  function Exec(steps: seq<Step>): World {
    if steps == [] then Init() else Next(Exec(steps[..|steps| - 1]), steps[|steps| - 1])
  }

  // The fixed tables have room for the step: a read that returns a value is
  // remembered, and a commit finds or makes a record for every write.
  predicate StepFits(w: World, s: Step) {
    && (s.DoRead? && s.h in w.txns ==>
          var r := ReadValue(w.m, w.txns[s.h].t, s.key); r.Value? ==> r.tracked)
    && (s.DoCommit? && s.h in w.txns && Valid(w.m, w.txns[s.h].t) ==>
          Room(w.m.records, w.txns[s.h].t.writeSet, w.m.version))
  }

  predicate Room(records: map<Key, Rec>, writes: Table<Key, string>, ts: nat) {
    forall i :: 0 <= i < |writes| ==> RoomAt(records, writes, i, ts)
  }

  predicate RoomAt(records: map<Key, Rec>, writes: Table<Key, string>, i: nat, ts: nat)
    requires i < |writes|
  {
    var r := Install(records, writes, i, ts); writes[i].key in r || |r| < MAX_KEYS
  }

  predicate Fits(steps: seq<Step>) {
    steps != [] ==> Fits(steps[..|steps| - 1]) && StepFits(Exec(steps[..|steps| - 1]), steps[|steps| - 1])
  }

  // ---------- The serial reference ----------

  // One transaction alone, operating directly on the store; a read that does
  // not return the store's value makes the execution impossible.
  function Lookup(s: map<Key, string>, k: Key): string { if k in s then s[k] else "" }

  function RunAlone(s: map<Key, string>, ops: seq<Op>): Option<map<Key, string>> {
    if ops == [] then Some(s) else
    var r := RunAlone(s, ops[..|ops| - 1]);
    if r.None? then None else
    match ops[|ops| - 1]
    case Read(k, v) => if Lookup(r.value, k) == v then r else None
    case Write(k, v) => Some(r.value[k := v])
  }

  function RunSerially(log: seq<Entered>): Option<map<Key, string>> {
    if log == [] then Some(map[]) else
    var r := RunSerially(log[..|log| - 1]);
    if r.None? then None else RunAlone(r.value, log[|log| - 1].ops)
  }

  // ---------- The inductive invariant ----------

  function ValueOf(records: map<Key, Rec>, k: Key): string {
    if k in records then records[k].value else ""
  }

  // What a transaction has written so far.
  function Written(ops: seq<Op>): map<Key, string> {
    if ops == [] then map[] else
    var m := Written(ops[..|ops| - 1]);
    if ops[|ops| - 1].Write? then m[ops[|ops| - 1].key := ops[|ops| - 1].value] else m
  }

  // Some read entry for k is no newer than the record, and if it is as new then
  // the record still holds the value that was read.
  ghost predicate Tracked(records: map<Key, Rec>, readSet: seq<ReadEntry>, k: Key, v: string) {
    k in records && exists i :: TrackedAt(records, readSet, k, v, i)
  }

  ghost predicate TrackedAt(records: map<Key, Rec>, readSet: seq<ReadEntry>, k: Key, v: string, i: int)
    requires k in records
  {
    && 0 <= i < |readSet| && readSet[i].key == k
    && readSet[i].version <= records[k].version
    && (readSet[i].version == records[k].version ==> records[k].value == v)
  }

  ghost predicate OpOk(records: map<Key, Rec>, readSet: seq<ReadEntry>, before: seq<Op>, op: Op) {
    op.Read? ==> if op.key in Written(before) then op.value == Written(before)[op.key]
                 else Tracked(records, readSet, op.key, op.value)
  }

  ghost predicate HandleOk(records: map<Key, Rec>, e: Handle) {
    && Distinct(e.t.writeSet)
    && (forall k :: Has(e.t.writeSet, k) <==> k in Written(e.ops))
    && (forall k :: Has(e.t.writeSet, k) ==> Get(e.t.writeSet, k) == Written(e.ops)[k])
    && (forall j :: 0 <= j < |e.ops| ==> OpOk(records, e.t.readSet, e.ops[..j], e.ops[j]))
  }

  // The serial execution of the commits so far exists and ends in the records.
  ghost predicate SerialOk(m: Manager, log: seq<Entered>) {
    && RunSerially(log).Some?
    && forall k :: Lookup(RunSerially(log).value, k) == ValueOf(m.records, k)
  }

  ghost predicate Inv(w: World) {
    && w.m.version > 0
    && (forall k :: k in w.m.records ==> w.m.records[k].version < w.m.version)
    && (forall h <- w.txns :: HandleOk(w.m.records, w.txns[h]))
    && SerialOk(w.m, w.log)
    && (forall i :: 0 <= i < |w.log| ==> w.log[i].ts < w.m.version)
    && (forall i, j :: 0 <= i < j < |w.log| ==> w.log[i].ts < w.log[j].ts)
    && (forall i :: 0 <= i < |w.m.active| ==> w.m.active[i].readSet == [])
  }

  // Records are only added, or overwritten under a higher version.
  ghost predicate Newer(a: map<Key, Rec>, b: map<Key, Rec>) {
    forall k :: k in a ==> k in b && (a[k] == b[k] || a[k].version < b[k].version)
  }

  lemma {:induction false} NewerKeepsHandle(a: map<Key, Rec>, b: map<Key, Rec>, e: Handle)
    requires Newer(a, b) && HandleOk(a, e)
    ensures HandleOk(b, e)
  {
    forall j | 0 <= j < |e.ops| ensures OpOk(b, e.t.readSet, e.ops[..j], e.ops[j]) {
      assert OpOk(a, e.t.readSet, e.ops[..j], e.ops[j]);
      if e.ops[j].Read? && e.ops[j].key !in Written(e.ops[..j]) {
        var k, v := e.ops[j].key, e.ops[j].value;
        var i :| TrackedAt(a, e.t.readSet, k, v, i);
        assert TrackedAt(b, e.t.readSet, k, v, i);
      }
    }
  }

  // ---------- A validated transaction runs alone on the current records ----------

  lemma {:induction false} ValidatedRunsAlone(records: map<Key, Rec>, e: Handle, s: map<Key, string>, n: nat)
    requires HandleOk(records, e) && BackwardValid(records, e.t.readSet) && n <= |e.ops|
    requires forall k :: Lookup(s, k) == ValueOf(records, k)
    ensures RunAlone(s, e.ops[..n]) == Some(s + Written(e.ops[..n]))
  {
    if n > 0 {
      ValidatedRunsAlone(records, e, s, n - 1);
      assert e.ops[..n][..n - 1] == e.ops[..n - 1];
      assert OpOk(records, e.t.readSet, e.ops[..n - 1], e.ops[n - 1]);
      var op := e.ops[n - 1];
      if op.Read? && op.key !in Written(e.ops[..n - 1]) {
        var i :| TrackedAt(records, e.t.readSet, op.key, op.value, i);
        assert Lookup(s, op.key) == op.value;
      }
      OpRunsAlone(s, e.ops[..n - 1], op, e.ops[..n]);
    } else {
      assert e.ops[..0] == [] && s + map[] == s;
    }
  }

  lemma {:induction false} OpRunsAlone(s: map<Key, string>, before: seq<Op>, op: Op, ops: seq<Op>)
    requires ops == before + [op] && RunAlone(s, before) == Some(s + Written(before))
    requires op.Read? ==> Lookup(s + Written(before), op.key) == op.value
    ensures RunAlone(s, ops) == Some(s + Written(ops))
  {
    assert ops[..|ops| - 1] == before;
    if op.Write? {
      assert (s + Written(before))[op.key := op.value] == s + Written(ops);
    }
  }

  // A write that finds room is installed, one that does not leaves no record.
  lemma {:induction false} InstallEffect(records: map<Key, Rec>, writes: Table<Key, string>, k: nat, ts: nat, x: Key)
    requires k <= |writes| && Distinct(writes)
    ensures var r := Install(records, writes, k, ts); var i := Find(writes, x);
            && (0 <= i < k ==> if RoomAt(records, writes, i, ts) then x in r && r[x] == Rec(writes[i].value, ts)
                               else x !in r)
            && (!(0 <= i < k) ==> (x in r <==> x in records) && (x in r ==> r[x] == records[x]))
  {
    if k > 0 {
      InstallEffect(records, writes, k - 1, ts, x);
      FindUnique(writes, writes[k - 1].key, k - 1);
    }
  }

  lemma {:induction false} InstallNewer(records: map<Key, Rec>, writes: Table<Key, string>, ts: nat)
    requires Distinct(writes) && Room(records, writes, ts)
    requires forall k :: k in records ==> records[k].version < ts
    ensures Newer(records, Install(records, writes, |writes|, ts))
    ensures forall k :: k in Install(records, writes, |writes|, ts) ==>
                          Install(records, writes, |writes|, ts)[k].version <= ts
  {
    forall k ensures var r := Install(records, writes, |writes|, ts);
                     && (k in records ==> k in r)
                     && (k in r ==> r[k].version <= ts)
                     && (k in r && k in records ==>
                           records[k] == r[k] || records[k].version < r[k].version)
    {
      InstallEffect(records, writes, |writes|, ts, k);
      assert Has(writes, k) ==> RoomAt(records, writes, Find(writes, k), ts);
    }
  }

  // ---------- Steps keep the invariant ----------

  // The serial execution continues with every valid commit, room or not.
  lemma {:induction false} CommitRunsSerially(w: World, e: Handle, log: seq<Entered>)
    requires Inv(w) && HandleOk(w.m.records, e) && Valid(w.m, e.t) && log == w.log + [Entered(w.m.version, e.ops)]
    ensures RunSerially(log) == Some(RunSerially(w.log).value + Written(e.ops))
  {
    assert log[..|log| - 1] == w.log && e.ops[..|e.ops|] == e.ops;
    ValidatedRunsAlone(w.m.records, e, RunSerially(w.log).value, |e.ops|);
  }

  // The records of one key end as the serial execution has them, exactly when its
  // write, if any, finds room or writes the value of a missing record.
  lemma {:induction false} CommitKey(w: World, e: Handle, records: map<Key, Rec>, k: Key)
    requires Inv(w) && HandleOk(w.m.records, e)
    requires records == Install(w.m.records, e.t.writeSet, |e.t.writeSet|, w.m.version)
    ensures Lookup(RunSerially(w.log).value + Written(e.ops), k) == ValueOf(records, k) <==>
            (Has(e.t.writeSet, k) ==> Lands(w.m, e.t, Find(e.t.writeSet, k)))
  {
    InstallEffect(w.m.records, e.t.writeSet, |e.t.writeSet|, w.m.version, k);
    assert Lookup(RunSerially(w.log).value, k) == ValueOf(w.m.records, k);
  }

  // The i-th write of a transaction finds room, or writes the value of a missing record.
  predicate Lands(m: Manager, t: Txn, i: int) {
    0 <= i < |t.writeSet| ==> RoomAt(m.records, t.writeSet, i, m.version) || t.writeSet[i].value == ""
  }

  // Exactly when a valid commit leaves the records that the serial execution ends in.
  lemma {:induction false} CommitExactly(w: World, h: nat, w': World)
    requires Inv(w) && h in w.txns && Valid(w.m, w.txns[h].t) && w' == Next(w, DoCommit(h))
    ensures RunSerially(w'.log).Some?
    ensures SerialOk(w'.m, w'.log) <==> forall i :: Lands(w.m, w.txns[h].t, i)
  {
    var e, s := w.txns[h], RunSerially(w.log).value;
    assert HandleOk(w.m.records, e);
    CommitRunsSerially(w, e, w'.log);
    forall k ensures Lookup(s + Written(e.ops), k) == ValueOf(w'.m.records, k) <==>
                     (Has(e.t.writeSet, k) ==> Lands(w.m, e.t, Find(e.t.writeSet, k)))
    {
      CommitKey(w, e, w'.m.records, k);
    }
    if SerialOk(w'.m, w'.log) {
      forall i: int ensures Lands(w.m, e.t, i) {
        if 0 <= i < |e.t.writeSet| {
          FindUnique(e.t.writeSet, e.t.writeSet[i].key, i);
          assert Lookup(s + Written(e.ops), e.t.writeSet[i].key) == ValueOf(w'.m.records, e.t.writeSet[i].key);
        }
      }
    }
  }

  lemma {:induction false} CommitKeepsSerial(w: World, h: nat)
    requires Inv(w) && h in w.txns && Valid(w.m, w.txns[h].t)
    requires Room(w.m.records, w.txns[h].t.writeSet, w.m.version)
    ensures SerialOk(Commit(w.m, w.txns[h].t).0, w.log + [Entered(w.m.version, w.txns[h].ops)])
  {
    CommitExactly(w, h, Next(w, DoCommit(h)));
    assert forall i :: Lands(w.m, w.txns[h].t, i);
  }

  lemma {:induction false} NewerKeepsHandles(a: map<Key, Rec>, b: map<Key, Rec>, txns: map<nat, Handle>)
    requires Newer(a, b) && forall h <- txns :: HandleOk(a, txns[h])
    ensures forall h <- txns :: HandleOk(b, txns[h])
  {
    forall h | h in txns ensures HandleOk(b, txns[h]) {
      NewerKeepsHandle(a, b, txns[h]);
    }
  }

  // Any newer records that continue the serial execution keep the invariant.
  lemma {:induction false} NewRecordsKeepInv(w: World, h: nat, m: Manager, t: Txn, log: seq<Entered>)
    requires Inv(w) && h in w.txns && Newer(w.m.records, m.records)
    requires m.version == w.m.version + 1 && m.active == w.m.active
    requires forall k :: k in m.records ==> m.records[k].version < m.version
    requires t.readSet == w.txns[h].t.readSet && t.writeSet == w.txns[h].t.writeSet
    requires log == w.log + [Entered(w.m.version, w.txns[h].ops)] && SerialOk(m, log)
    ensures Inv(World(m, w.txns[h := Handle(t, w.txns[h].ops)], log))
  {
    NewerKeepsHandles(w.m.records, m.records, w.txns);
    assert HandleOk(m.records, Handle(t, w.txns[h].ops));
  }

  lemma {:induction false} CommitKeepsInv(w: World, h: nat)
    requires Inv(w) && h in w.txns && Valid(w.m, w.txns[h].t)
    requires Room(w.m.records, w.txns[h].t.writeSet, w.m.version)
    ensures Inv(Next(w, DoCommit(h)))
  {
    var e := w.txns[h];
    assert HandleOk(w.m.records, e);
    CommitKeepsSerial(w, h);
    InstallNewer(w.m.records, e.t.writeSet, w.m.version);
    var (m, t) := Commit(w.m, e.t);
    NewRecordsKeepInv(w, h, m, t, w.log + [Entered(w.m.version, e.ops)]);
  }

  lemma {:induction false} EnsureNewer(records: map<Key, Rec>, key: Key)
    ensures Newer(records, EnsureRecord(records, key, ""))
    ensures forall k :: ValueOf(EnsureRecord(records, key, ""), k) == ValueOf(records, k)
  {
  }

  // A read of a transaction that is remembered with the version it saw.
  lemma {:induction false} ReadKeepsHandle(m: Manager, e: Handle, key: Key)
    requires HandleOk(m.records, e) && ReadValue(m, e.t, key).Value? && ReadValue(m, e.t, key).tracked
    ensures var (m', t) := ReadEffect(m, e.t, key);
            HandleOk(m'.records, Handle(t, e.ops + [Read(key, ReadValue(m, e.t, key).value)]))
  {
    var (m', t) := ReadEffect(m, e.t, key);
    var v := ReadValue(m, e.t, key).value;
    var ops := e.ops + [Read(key, v)];
    EnsureNewer(m.records, key);
    NewerKeepsHandle(m.records, m'.records, e);
    assert ops[..|ops| - 1] == e.ops;
    forall j | 0 <= j < |ops| ensures OpOk(m'.records, t.readSet, ops[..j], ops[j]) {
      assert ops[..j] == e.ops[..j];
      if j < |e.ops| {
        assert OpOk(m'.records, e.t.readSet, e.ops[..j], e.ops[j]);
        if ops[j].Read? && ops[j].key !in Written(ops[..j]) {
          var i :| TrackedAt(m'.records, e.t.readSet, ops[j].key, ops[j].value, i);
          assert TrackedAt(m'.records, t.readSet, ops[j].key, ops[j].value, i);
        }
      } else if !Has(e.t.writeSet, key) {
        assert e.ops[..j] == e.ops;
        assert TrackedAt(m'.records, t.readSet, key, v, |t.readSet| - 1);
      } else {
        assert e.ops[..j] == e.ops;
      }
    }
  }

  lemma {:induction false} ReadKeepsInv(w: World, h: nat, key: Key)
    requires Inv(w) && StepFits(w, DoRead(h, key))
    ensures Inv(Next(w, DoRead(h, key)))
  {
    if h in w.txns {
      var e, w' := w.txns[h], Next(w, DoRead(h, key));
      assert HandleOk(w.m.records, e);
      EnsureNewer(w.m.records, key);
      if ReadValue(w.m, e.t, key).Value? {
        ReadKeepsHandle(w.m, e, key);
      }
      NewerKeepsHandles(w.m.records, w'.m.records, w.txns);
    }
  }

  lemma {:induction false} WriteKeepsHandle(records: map<Key, Rec>, e: Handle, key: Key, value: string)
    requires HandleOk(records, e) && CanWrite(e.t)
    ensures HandleOk(records, Handle(WriteEffect(e.t, key, value), e.ops + [Write(key, value)]))
  {
    var ops := e.ops + [Write(key, value)];
    assert ops[..|ops| - 1] == e.ops;
    forall k ensures var ws := Put(e.t.writeSet, key, value);
                     && (Has(ws, k) <==> k in Written(ops)) && (Has(ws, k) ==> Get(ws, k) == Written(ops)[k])
                     && Distinct(ws)
    {
      PutEffect(e.t.writeSet, key, value, k);
    }
    PutEffect(e.t.writeSet, key, value, key);
    forall j | 0 <= j < |ops| ensures OpOk(records, e.t.readSet, ops[..j], ops[j]) {
      assert ops[..j] == e.ops[..j];
      if j < |e.ops| {
        assert OpOk(records, e.t.readSet, e.ops[..j], e.ops[j]);
      }
    }
  }

  lemma {:induction false} NextKeepsInv(w: World, s: Step)
    requires Inv(w) && StepFits(w, s)
    ensures Inv(Next(w, s))
  {
    match s
    case DoCommit(h) =>
      if h in w.txns {
        assert HandleOk(w.m.records, w.txns[h]);
        if Valid(w.m, w.txns[h].t) {
          CommitKeepsInv(w, h);
        }
      }
    case DoRead(h, key) => ReadKeepsInv(w, h, key);
    case DoWrite(h, key, value) =>
      if h in w.txns && CanWrite(w.txns[h].t) {
        WriteKeepsHandle(w.m.records, w.txns[h], key, value);
      }
    case DoBegin(_, _) =>
    case DoValidate(h) => assert h in w.txns ==> HandleOk(w.m.records, w.txns[h]);
    case DoAbort(h) => assert h in w.txns ==> HandleOk(w.m.records, w.txns[h]);
  }

  lemma {:induction false} ExecKeepsInv(steps: seq<Step>)
    requires Fits(steps)
    ensures Inv(Exec(steps))
  {
    if steps != [] {
      ExecKeepsInv(steps[..|steps| - 1]);
      NextKeepsInv(Exec(steps[..|steps| - 1]), steps[|steps| - 1]);
    }
  }

  // Serializability: for every interleaving, running the committed
  // transactions one at a time in commit order, directly on an empty store,
  // reproduces every value each of them read and ends in the current records.
  lemma {:induction false} Serializable(steps: seq<Step>)
    requires Fits(steps)
    ensures var w := Exec(steps);
            && RunSerially(w.log).Some?
            && (forall k :: Lookup(RunSerially(w.log).value, k) == ValueOf(w.m.records, k))
            && (forall i, j :: 0 <= i < j < |w.log| ==> w.log[i].ts < w.log[j].ts)
  {
    ExecKeepsInv(steps);
  }

  // ---------- What is answered and what is refused ----------

  // The buffered writes of a transaction are what it has written, in every run.
  ghost predicate OwnWrites(e: Handle) { Distinct(e.t.writeSet) && AsMap(e.t.writeSet) == Written(e.ops) }

  ghost predicate AllOwn(w: World) { forall h <- w.txns :: OwnWrites(w.txns[h]) }

  lemma {:induction false} OwnReads(e: Handle, ops: seq<Op>, op: Op)
    requires ops == e.ops + [op]
    ensures Written(ops) == if op.Write? then Written(e.ops)[op.key := op.value] else Written(e.ops)
  {
    assert ops[..|ops| - 1] == e.ops;
  }

  lemma {:induction false} NextOwn(w: World, s: Step, w': World)
    requires AllOwn(w) && w' == Next(w, s)
    ensures AllOwn(w')
  {
    forall h | h in w'.txns ensures OwnWrites(w'.txns[h]) {
      if h in w.txns {
        var e, e' := w.txns[h], w'.txns[h];
        assert OwnWrites(e);
        if s.DoWrite? && s.h == h && CanWrite(e.t) {
          PutAsMap(e.t.writeSet, s.key, s.value);
          OwnReads(e, e'.ops, Write(s.key, s.value));
        } else if s.DoRead? && s.h == h && ReadValue(w.m, e.t, s.key).Value? {
          OwnReads(e, e'.ops, Read(s.key, ReadValue(w.m, e.t, s.key).value));
        }
      }
    }
  }

  lemma {:induction false} ExecOwn(steps: seq<Step>)
    ensures AllOwn(Exec(steps))
  {
    if steps != [] {
      ExecOwn(steps[..|steps| - 1]);
      NextOwn(Exec(steps[..|steps| - 1]), steps[|steps| - 1], Exec(steps));
    }
  }

  // A key has a value to read: a record, or room for one.
  predicate Readable(records: map<Key, Rec>, key: Key) { key in records || |records| < MAX_KEYS }

  // In every run: outside the read phase nothing is read; a key written before reads
  // as written; any other key reads as its record, or as empty where there is room
  // for a record; and only the last kind of read is remembered.
  lemma {:induction false} ReadExactly(steps: seq<Step>, h: nat, key: Key)
    requires h in Exec(steps).txns
    ensures var w, w' := Exec(steps), Exec(steps + [DoRead(h, key)]); var e := w.txns[h]; var own := Written(e.ops);
            && h in w'.txns && var e' := w'.txns[h];
            if e.t.phase != ReadPhase || (key !in own && !Readable(w.m.records, key)) then e' == e
            else if key in own then e' == e.(ops := e.ops + [Read(key, own[key])])
            else
              && e'.ops == e.ops + [Read(key, ValueOf(w.m.records, key))]
              && e'.t == (if |e.t.readSet| >= MAX_KEYS then e.t else
                          var version := if key in w.m.records then w.m.records[key].version else 0;
                          e.t.(readSet := e.t.readSet + [ReadEntry(key, version)]))
  {
    var w, e := Exec(steps), Exec(steps).txns[h];
    assert (steps + [DoRead(h, key)])[..|steps|] == steps;
    ExecOwn(steps);
    assert OwnWrites(e);
    AsMapHas(e.t.writeSet, key);
  }

  // In every run: a write is taken in the read phase, for up to 64 different keys.
  lemma {:induction false} WriteExactly(steps: seq<Step>, h: nat, key: Key, value: string)
    requires h in Exec(steps).txns
    ensures var e := Exec(steps).txns[h]; var w' := Exec(steps + [DoWrite(h, key, value)]);
            h in w'.txns && w'.txns[h].ops ==
              if e.t.phase == ReadPhase && |Written(e.ops)| < MAX_KEYS then e.ops + [Write(key, value)] else e.ops
  {
    var e := Exec(steps).txns[h];
    assert (steps + [DoWrite(h, key, value)])[..|steps|] == steps;
    ExecOwn(steps);
    assert OwnWrites(e);
    AsMapSize(e.t.writeSet);
  }

  // Record versions are the timestamps of the last commits of their keys.
  ghost predicate VersionOf(w: World, k: Key) {
    && (forall j :: 0 <= j < |w.log| && k in Written(w.log[j].ops) ==>
                      k in w.m.records && w.log[j].ts <= w.m.records[k].version)
    && (k in w.m.records && w.m.records[k].version > 0 ==> WrittenAt(w.log, k, w.m.records[k].version))
  }

  ghost predicate WrittenAt(log: seq<Entered>, k: Key, ts: nat) {
    exists j :: 0 <= j < |log| && log[j].ts == ts && k in Written(log[j].ops)
  }

  ghost predicate AllVersions(w: World) { forall k :: VersionOf(w, k) }

  lemma {:induction false} CommitVersion(w: World, h: nat, w': World, k: Key)
    requires Inv(w) && VersionOf(w, k) && h in w.txns && Valid(w.m, w.txns[h].t) && w' == Next(w, DoCommit(h))
    requires Room(w.m.records, w.txns[h].t.writeSet, w.m.version)
    ensures VersionOf(w', k)
  {
    var e, n := w.txns[h], |w.log|;
    assert HandleOk(w.m.records, e);
    InstallEffect(w.m.records, e.t.writeSet, |e.t.writeSet|, w.m.version, k);
    assert w'.log[n] == Entered(w.m.version, e.ops) && forall j :: 0 <= j < n ==> w'.log[j] == w.log[j];
    if Has(e.t.writeSet, k) {
      assert RoomAt(w.m.records, e.t.writeSet, Find(e.t.writeSet, k), w.m.version);
    } else if k in w.m.records && w.m.records[k].version > 0 {
      var j :| 0 <= j < |w.log| && w.log[j].ts == w.m.records[k].version && k in Written(w.log[j].ops);
      assert w'.log[j] == w.log[j];
    }
  }

  lemma {:induction false} NextVersions(w: World, s: Step, w': World)
    requires Inv(w) && AllVersions(w) && StepFits(w, s) && w' == Next(w, s)
    ensures AllVersions(w')
  {
    forall k ensures VersionOf(w', k) {
      assert VersionOf(w, k);
      if s.DoCommit? && s.h in w.txns && Valid(w.m, w.txns[s.h].t) {
        CommitVersion(w, s.h, w', k);
      }
    }
  }

  lemma {:induction false} ExecVersions(steps: seq<Step>)
    requires Fits(steps)
    ensures AllVersions(Exec(steps))
  {
    if steps != [] {
      var rest := steps[..|steps| - 1];
      ExecVersions(rest);
      ExecKeepsInv(rest);
      NextVersions(Exec(rest), steps[|steps| - 1], Exec(steps));
    }
  }

  // Nothing a transaction remembers reading was overwritten by a later commit.
  ghost predicate Undisturbed(log: seq<Entered>, readSet: seq<ReadEntry>) {
    forall i, j :: 0 <= i < |readSet| && 0 <= j < |log| && log[j].ts > readSet[i].version ==>
                     readSet[i].key !in Written(log[j].ops)
  }

  lemma {:induction false} ValidExactly(w: World, readSet: seq<ReadEntry>)
    requires AllVersions(w)
    ensures BackwardValid(w.m.records, readSet) <==> Undisturbed(w.log, readSet)
  {
    if BackwardValid(w.m.records, readSet) {
      forall i, j | 0 <= i < |readSet| && 0 <= j < |w.log| && w.log[j].ts > readSet[i].version
        ensures readSet[i].key !in Written(w.log[j].ops)
      {
        assert VersionOf(w, readSet[i].key);
      }
    }
    if Undisturbed(w.log, readSet) {
      forall i | 0 <= i < |readSet| && readSet[i].key in w.m.records
        ensures w.m.records[readSet[i].key].version <= readSet[i].version
      {
        assert VersionOf(w, readSet[i].key);
      }
    }
  }

  // After every run that fits: a commit enters the history, under the next version,
  // exactly when nothing the transaction remembers reading was overwritten since;
  // otherwise the transaction is aborted and the records stay as they are.
  lemma {:induction false} CommitsExactly(steps: seq<Step>, h: nat)
    requires Fits(steps) && h in Exec(steps).txns
    ensures var w, w' := Exec(steps), Exec(steps + [DoCommit(h)]); var e := w.txns[h];
            h in w'.txns && if Undisturbed(w.log, e.t.readSet)
            then w'.log == w.log + [Entered(w.m.version, e.ops)] && w'.txns[h].t.phase == Committed
            else w'.log == w.log && w'.m == w.m && w'.txns[h].t.phase == Aborted
  {
    var w := Exec(steps);
    assert (steps + [DoCommit(h)])[..|steps|] == steps;
    ExecVersions(steps);
    ValidExactly(w, w.txns[h].t.readSet);
    ForwardValidationNeverRejects(steps, w.txns[h].t);
  }

  // The active list only grows: it is never shortened by a commit or an abort, so a
  // manager takes no more than 32 transactions in all.
  lemma {:induction false} ActiveOnlyGrows(xs: seq<Step>, ys: seq<Step>)
    requires xs <= ys
    ensures Exec(xs).m.active <= Exec(ys).m.active && |Exec(ys).m.active| <= MAX_TXN
    decreases |ys|
  {
    if xs != ys {
      ActiveOnlyGrows(xs, ys[..|ys| - 1]);
      NextActiveGrows(Exec(ys[..|ys| - 1]), ys[|ys| - 1]);
    } else if xs != [] {
      var before := xs[..|xs| - 1];
      ActiveOnlyGrows(before, before);
      NextActiveGrows(Exec(before), xs[|xs| - 1]);
    }
  }

  lemma {:induction false} NextActiveGrows(w: World, s: Step)
    requires |w.m.active| <= MAX_TXN
    ensures w.m.active <= Next(w, s).m.active && |Next(w, s).m.active| <= MAX_TXN
  {
  }

  // ---------- Why commits need room ----------

  // After every run that fits, a valid commit that does not fit because of the
  // record table leaves other records than the serial execution, unless all it
  // loses is writes of the value that a missing record has anyway.
  lemma {:induction false} CommitWithoutRoom(steps: seq<Step>, h: nat)
    requires Fits(steps) && h in Exec(steps).txns && Valid(Exec(steps).m, Exec(steps).txns[h].t)
    ensures var w, w' := Exec(steps), Exec(steps + [DoCommit(h)]);
            && RunSerially(w'.log).Some?
            && ((forall k :: Lookup(RunSerially(w'.log).value, k) == ValueOf(w'.m.records, k)) <==>
                (forall i :: Lands(w.m, w.txns[h].t, i)))
  {
    ExecKeepsInv(steps);
    assert (steps + [DoCommit(h)])[..|steps|] == steps;
    CommitExactly(Exec(steps), h, Exec(steps + [DoCommit(h)]));
  }

  // ---------- Why reads must be remembered ----------

  lemma {:induction false} Extend(xs: seq<Step>, w: World, s: Step, w': World) returns (ys: seq<Step>)
    requires Exec(xs) == w && Next(w, s) == w'
    ensures ys == xs + [s] && Exec(ys) == w' && (Fits(xs) && StepFits(w, s) ==> Fits(ys))
  {
    ys := xs + [s];
    assert ys[..|ys| - 1] == xs;
  }

  // A transaction that is valid so far, whose full read set will not remember a
  // read of a key it neither wrote nor read before, and that can still write it.
  ghost predicate Forgets(w: World, h: nat, key: Key) {
    && h in w.txns && var t := w.txns[h].t;
       && t.phase == ReadPhase && |t.readSet| >= MAX_KEYS && CanWrite(t) && !Has(t.writeSet, key)
       && (forall i :: 0 <= i < |t.readSet| ==> t.readSet[i].key != key)
       && key in EnsureRecord(w.m.records, key, "") && BackwardValid(w.m.records, t.readSet)
  }

  function Update(key: Key, v: string, v': string): seq<Op> { [Read(key, v), Write(key, v')] }

  // The world in which h and h2 have both read and written key.
  ghost predicate Raced(w: World, h: nat, h2: nat, key: Key, v: string, v1: string, v2: string, w': World) {
    && h in w.txns && key in w'.m.records && w'.m.records[key].value == v && h != h2
    && w'.log == w.log && w'.m.version > w.m.version
    && h in w'.txns && w'.txns[h].ops == w.txns[h].ops + Update(key, v, v1)
    && w'.txns[h].t.readSet == w.txns[h].t.readSet && BackwardValid(w'.m.records, w.txns[h].t.readSet)
    && h2 in w'.txns && w'.txns[h2].ops == Update(key, v, v2)
    && w'.txns[h2].t.readSet == [ReadEntry(key, w'.m.records[key].version)]
    && w'.txns[h2].t.writeSet == [Entry(key, v2)]
    && forall i :: 0 <= i < |w'.m.active| ==> w'.m.active[i].readSet == []
  }

  // Transaction h has read the key without remembering it, and written it.
  ghost predicate Blinded(w: World, h: nat, key: Key, v: string, v1: string, w2: World) {
    && h in w.txns && h in w2.txns && w2.txns[h].ops == w.txns[h].ops + Update(key, v, v1)
    && w2.txns[h].t.readSet == w.txns[h].t.readSet && w2.log == w.log
    && w2.m == w.m.(records := EnsureRecord(w.m.records, key, ""))
    && key in w2.m.records && w2.m.records[key].value == v
  }

  lemma {:induction false} FirstUpdates(w: World, h: nat, key: Key, v: string, v1: string, w2: World)
    requires Forgets(w, h, key) && v == EnsureRecord(w.m.records, key, "")[key].value
    requires w2 == Next(Next(w, DoRead(h, key)), DoWrite(h, key, v1))
    ensures Blinded(w, h, key, v, v1, w2)
  {
    var w1 := Next(w, DoRead(h, key));
    assert w1.txns[h].ops == w.txns[h].ops + [Read(key, v)] && w1.txns[h].t == w.txns[h].t;
    assert w.txns[h].ops + [Read(key, v)] + [Write(key, v1)] == w.txns[h].ops + Update(key, v, v1);
  }

  // A new transaction that has read and written the key.
  ghost predicate Began(w: World, h2: nat, key: Key, ops: seq<Op>, readSet: seq<ReadEntry>, v2: string, w3: World) {
    && h2 in w3.txns && w3.txns[h2].ops == ops && w3.txns[h2].t.readSet == readSet
    && w3.txns[h2].t.writeSet == [Entry(key, v2)]
    && w3.m == w.m.(version := w.m.version + 1, active := w3.m.active) && w3.log == w.log
    && |w3.m.active| == |w.m.active| + 1 && w3.m.active[..|w.m.active|] == w.m.active
    && w3.m.active[|w.m.active|].readSet == []
    && forall g :: g in w.txns && g != h2 ==> g in w3.txns && w3.txns[g] == w.txns[g]
  }

  lemma {:induction false} SecondUpdates(w: World, h2: nat, id: int, key: Key, v2: string, w3: World)
    requires key in w.m.records && |w.m.active| < MAX_TXN
    requires w3 == Next(Next(Next(w, DoBegin(h2, id)), DoRead(h2, key)), DoWrite(h2, key, v2))
    ensures var r := w.m.records[key];
            Began(w, h2, key, Update(key, r.value, v2), [ReadEntry(key, r.version)], v2, w3)
  {
    var v := w.m.records[key].value;
    var w1 := Next(w, DoBegin(h2, id));
    var w2 := Next(w1, DoRead(h2, key));
    assert w2.txns[h2].ops == [Read(key, v)] && w2.m == w1.m;
    assert Put([], key, v2) == [Entry(key, v2)];
    assert [Read(key, v)] + [Write(key, v2)] == Update(key, v, v2);
  }

  lemma {:induction false} RacedFrom(w: World, h: nat, key: Key, v: string, v1: string, h2: nat, v2: string, w2: World,
                                     w3: World)
    requires h in w.txns && h != h2 && BackwardValid(w.m.records, w.txns[h].t.readSet) && ActiveEmpty(w.m)
    requires forall i :: 0 <= i < |w.txns[h].t.readSet| ==> w.txns[h].t.readSet[i].key != key
    requires Blinded(w, h, key, v, v1, w2)
    requires Began(w2, h2, key, Update(key, v, v2), [ReadEntry(key, w2.m.records[key].version)], v2, w3)
    ensures Raced(w, h, h2, key, v, v1, v2, w3)
  {
  }

  lemma {:induction false} FirstRun(xs: seq<Step>, w: World, h: nat, key: Key, v: string, v1: string)
    returns (ys: seq<Step>, w2: World)
    requires w == Exec(xs) && Forgets(w, h, key) && v == EnsureRecord(w.m.records, key, "")[key].value
    ensures xs <= ys && Exec(ys) == w2 && Blinded(w, h, key, v, v1, w2)
  {
    var w1 := Next(w, DoRead(h, key));
    w2 := Next(w1, DoWrite(h, key, v1));
    FirstUpdates(w, h, key, v, v1, w2);
    ys := Extend(xs, w, DoRead(h, key), w1);
    ys := Extend(ys, w1, DoWrite(h, key, v1), w2);
  }

  lemma {:induction false} SecondRun(xs: seq<Step>, w: World, h2: nat, id: int, key: Key, v2: string)
    returns (ys: seq<Step>, w3: World)
    requires w == Exec(xs) && key in w.m.records && |w.m.active| < MAX_TXN
    ensures xs <= ys && Exec(ys) == w3
    ensures var r := w.m.records[key];
            Began(w, h2, key, Update(key, r.value, v2), [ReadEntry(key, r.version)], v2, w3)
  {
    var w1 := Next(w, DoBegin(h2, id));
    var w2 := Next(w1, DoRead(h2, key));
    w3 := Next(w2, DoWrite(h2, key, v2));
    SecondUpdates(w, h2, id, key, v2, w3);
    ys := Extend(xs, w, DoBegin(h2, id), w1);
    ys := Extend(ys, w1, DoRead(h2, key), w2);
    ys := Extend(ys, w2, DoWrite(h2, key, v2), w3);
  }

  lemma {:induction false} CommitRun(xs: seq<Step>, w: World, h2: nat, h: nat) returns (ys: seq<Step>, w': World)
    requires w == Exec(xs)
    ensures xs <= ys && Exec(ys) == w' && w'.log == Next(Next(w, DoCommit(h2)), DoCommit(h)).log
  {
    var w1 := Next(w, DoCommit(h2));
    w' := Next(w1, DoCommit(h));
    ys := Extend(xs, w, DoCommit(h2), w1);
    ys := Extend(ys, w1, DoCommit(h), w');
  }

  // Both transactions of the race commit.
  lemma {:induction false} BothCommit(w: World, h: nat, h2: nat, key: Key, v: string, v1: string, v2: string, w3: World,
                                      log: seq<Entered>)
    requires Forgets(w, h, key) && Raced(w, h, h2, key, v, v1, v2, w3)
    requires log == Next(Next(w3, DoCommit(h2)), DoCommit(h)).log
    ensures log == w.log + [Entered(w3.m.version, w3.txns[h2].ops), Entered(w3.m.version + 1, w3.txns[h].ops)]
  {
    var t2 := w3.txns[h2].t;
    assert Valid(w3.m, t2);
    var w4 := Next(w3, DoCommit(h2));
    assert Install(w3.m.records, t2.writeSet, 0, w3.m.version) == w3.m.records;
    assert w4.m.records == w3.m.records[key := Rec(v2, w3.m.version)] && w4.m.active == w3.m.active;
    assert w4.txns[h] == w3.txns[h];
    assert Valid(w4.m, w4.txns[h].t);
  }

  // A run that returned a value alone ends in the store with its writes.
  lemma {:induction false} RunAloneWrites(s: map<Key, string>, ops: seq<Op>)
    requires RunAlone(s, ops).Some?
    ensures RunAlone(s, ops).value == s + Written(ops)
  {
    if ops == [] {
      assert s + map[] == s;
    } else {
      var rest, op := ops[..|ops| - 1], ops[|ops| - 1];
      RunAloneWrites(s, rest);
      if op.Write? {
        assert (s + Written(rest))[op.key := op.value] == s + Written(ops);
      }
    }
  }

  // ---------- No serial order ----------

  // A transaction leaves a value in a key.
  ghost predicate Leaves(e: Entered, key: Key, v: string) {
    key in Written(e.ops) && Written(e.ops)[key] == v
  }

  // A transaction that finds v in the key, and leaves something else there.
  ghost predicate Updates(e: Entered, key: Key, v: string) {
    exists pre, v' :: UpdatesTo(e, key, v, pre, v')
  }

  ghost predicate UpdatesTo(e: Entered, key: Key, v: string, pre: seq<Op>, v': string) {
    e.ops == pre + Update(key, v, v') && key !in Written(pre) && v' != v
  }

  lemma {:induction false} UpdateNeeds(e: Entered, key: Key, v: string, s: map<Key, string>)
    requires Updates(e, key, v) && RunAlone(s, e.ops).Some?
    ensures Lookup(s, key) == v && Lookup(RunAlone(s, e.ops).value, key) != v && !Leaves(e, key, v)
  {
    var pre, v' :| UpdatesTo(e, key, v, pre, v');
    var most := pre + [Read(key, v)];
    assert e.ops[..|e.ops| - 1] == most;
    ReadNeeds(pre, key, v, s, most);
  }

  // A read of a key without own write returns what the store holds.
  lemma {:induction false} ReadNeeds(pre: seq<Op>, key: Key, v: string, s: map<Key, string>, most: seq<Op>)
    requires most == pre + [Read(key, v)] && key !in Written(pre) && RunAlone(s, most).Some?
    ensures Lookup(s, key) == v
  {
    assert most[..|most| - 1] == pre;
    RunAloneWrites(s, pre);
  }

  lemma {:induction false} PrefixRuns(p: seq<Entered>, k: nat)
    requires RunSerially(p).Some? && k <= |p|
    ensures RunSerially(p[..k]).Some?
  {
    if k < |p| {
      assert p[..|p| - 1][..k] == p[..k];
      PrefixRuns(p[..|p| - 1], k);
    } else {
      assert p[..k] == p;
    }
  }

  // The value of a key after the first k transactions of a serial execution.
  ghost function At(p: seq<Entered>, k: nat, key: Key): string
    requires k <= |p| && RunSerially(p[..k]).Some?
  {
    Lookup(RunSerially(p[..k]).value, key)
  }

  lemma {:induction false} RunsNext(p: seq<Entered>, k: nat)
    requires k < |p| && RunSerially(p).Some?
    ensures RunSerially(p[..k]).Some? && RunSerially(p[..k + 1]).Some?
    ensures RunSerially(p[..k + 1]) == RunAlone(RunSerially(p[..k]).value, p[k].ops)
  {
    PrefixRuns(p, k);
    PrefixRuns(p, k + 1);
    assert p[..k + 1][..k] == p[..k];
  }

  // A value that a key has later but not now was left by some transaction in between.
  lemma {:induction false} FindSource(p: seq<Entered>, i: nat, j: nat, key: Key, v: string) returns (c: nat)
    requires i <= j <= |p| && RunSerially(p).Some? && RunSerially(p[..i]).Some? && RunSerially(p[..j]).Some?
    requires At(p, i, key) != v && At(p, j, key) == v
    ensures i <= c < j && Leaves(p[c], key, v)
    decreases j
  {
    RunsNext(p, j - 1);
    if At(p, j - 1, key) == v {
      c := FindSource(p, i, j - 1, key, v);
    } else {
      c := j - 1;
      RunAloneWrites(RunSerially(p[..c]).value, p[c].ops);
    }
  }

  // Some value of the key has one source: the empty store, or one transaction.
  ghost predicate OneSource(log: seq<Entered>, key: Key, v: string) {
    && (forall i, j :: 0 <= i < j < |log| ==> !(Leaves(log[i], key, v) && Leaves(log[j], key, v)))
    && (v == "" ==> forall i :: 0 <= i < |log| ==> !Leaves(log[i], key, v))
  }

  ghost predicate AllDistinct(p: seq<Entered>) { forall i, j :: 0 <= i < j < |p| ==> p[i] != p[j] }

  // A serial execution has no two updates of a value with one source.
  lemma {:induction false} OneUpdate(p: seq<Entered>, i: nat, j: nat, key: Key, v: string)
    requires OneSource(p, key, v)
    requires i < j < |p| && Updates(p[i], key, v) && Updates(p[j], key, v)
    ensures RunSerially(p).None?
  {
    if RunSerially(p).Some? {
      RunsNext(p, i);
      RunsNext(p, j);
      UpdateNeeds(p[i], key, v, RunSerially(p[..i]).value);
      UpdateNeeds(p[j], key, v, RunSerially(p[..j]).value);
      var c := FindSource(p, i + 1, j, key, v);
      if v != "" {
        assert p[..0] == [];
        var c' := FindSource(p, 0, i, key, v);
      }
    }
  }

  lemma {:induction false} Occurs(p: seq<Entered>, i: nat, j: nat)
    requires i < j < |p| && p[i] == p[j]
    ensures multiset(p)[p[i]] >= 2
  {
    assert p == p[..j] + p[j..];
    assert p[i] in p[..j] && p[j] in p[j..];
  }

  lemma {:induction false} OccursOnce(p: seq<Entered>, i: nat)
    requires i < |p| && AllDistinct(p)
    ensures multiset(p)[p[i]] == 1
  {
    assert p == p[..i] + [p[i]] + p[i + 1..];
    assert p[i] !in p[..i] && p[i] !in p[i + 1..];
  }

  // Reordering distinct transactions keeps them distinct, and keeps sources single.
  lemma {:induction false} Reordered(q: seq<Entered>, p: seq<Entered>, key: Key, v: string)
    requires AllDistinct(q) && OneSource(q, key, v) && multiset(p) == multiset(q)
    ensures AllDistinct(p) && OneSource(p, key, v)
  {
    forall i, j | 0 <= i < j < |p| ensures p[i] != p[j] {
      var _ := InOther(p, q, i);
      if p[i] == p[j] {
        Occurs(p, i, j);
      }
    }
    forall i, j | 0 <= i < j < |p| ensures !(Leaves(p[i], key, v) && Leaves(p[j], key, v)) {
      var m := InOther(p, q, i);
      var n := InOther(p, q, j);
    }
    if v == "" {
      forall i | 0 <= i < |p| ensures !Leaves(p[i], key, v) {
        var m := InOther(p, q, i);
      }
    }
  }

  lemma {:induction false} InOther(p: seq<Entered>, q: seq<Entered>, i: nat) returns (m: nat)
    requires AllDistinct(q) && multiset(p) == multiset(q) && i < |p|
    ensures m < |q| && q[m] == p[i] && multiset(p)[p[i]] == 1
  {
    assert p[i] in multiset(p);
    m :| 0 <= m < |q| && q[m] == p[i];
    OccursOnce(q, m);
  }

  // No order of the logged transactions explains all their reads.
  ghost predicate Unserializable(log: seq<Entered>) {
    forall p :: multiset(p) == multiset(log) ==> RunSerially(p).None?
  }

  lemma {:induction false} TwoUpdates(log: seq<Entered>, i: nat, j: nat, key: Key, v: string)
    requires AllDistinct(log) && OneSource(log, key, v)
    requires i < j < |log| && Updates(log[i], key, v) && Updates(log[j], key, v)
    ensures Unserializable(log)
  {
    forall p | multiset(p) == multiset(log) ensures RunSerially(p).None? {
      Reordered(log, p, key, v);
      var m := InOther(log, p, i);
      var n := InOther(log, p, j);
      OneUpdate(p, if m < n then m else n, if m < n then n else m, key, v);
    }
  }

  lemma {:induction false} RaceUpdates(w: World, h: nat, h2: nat, key: Key, v: string, v1: string, v2: string,
                                       w3: World, log: seq<Entered>)
    requires Inv(w) && Forgets(w, h, key) && Raced(w, h, h2, key, v, v1, v2, w3) && v1 != v && v2 != v
    requires log == w.log + [Entered(w3.m.version, w3.txns[h2].ops), Entered(w3.m.version + 1, w3.txns[h].ops)]
    requires OneSource(w.log, key, v)
    ensures Unserializable(log)
  {
    var n, pre := |w.log|, w.txns[h].ops;
    assert HandleOk(w.m.records, w.txns[h]);
    assert key !in Written(pre) && Written([]) == map[];
    assert Update(key, v, v2) == [] + Update(key, v, v2);
    assert UpdatesTo(log[n], key, v, [], v2) && UpdatesTo(log[n + 1], key, v, pre, v1);
    UpdateLeaves(log[n], key, v, [], v2);
    UpdateLeaves(log[n + 1], key, v, pre, v1);
    assert forall i :: 0 <= i < n ==> log[i] == w.log[i] && log[i].ts < w.m.version;
    TwoUpdates(log, n, n + 1, key, v);
  }

  lemma {:induction false} UpdateLeaves(e: Entered, key: Key, v: string, pre: seq<Op>, v': string)
    requires UpdatesTo(e, key, v, pre, v')
    ensures Leaves(e, key, v') && !Leaves(e, key, v)
  {
    var most := pre + [Read(key, v)];
    assert e.ops[..|e.ops| - 1] == most && most[..|most| - 1] == pre;
  }

  // A lost update after every run that fits and in which a read will not be
  // remembered: h reads the key and writes it, another transaction does the same
  // and commits first. If the value they read has one source, no order explains it.
  lemma {:induction false} ForgottenReadLosesUpdate(xs: seq<Step>, h: nat, key: Key, v: string, v1: string, h2: nat,
                                                    id: int, v2: string)
    returns (ys: seq<Step>)
    requires Fits(xs) && Forgets(Exec(xs), h, key) && h != h2 && |Exec(xs).m.active| < MAX_TXN
    requires v == EnsureRecord(Exec(xs).m.records, key, "")[key].value && v1 != v && v2 != v
    requires OneSource(Exec(xs).log, key, v)
    ensures xs <= ys && Unserializable(Exec(ys).log)
  {
    var w, w2, w3, w5 := Exec(xs), Exec(xs), Exec(xs), Exec(xs);
    ExecKeepsInv(xs);
    ys, w2 := FirstRun(xs, w, h, key, v, v1);
    ys, w3 := SecondRun(ys, w2, h2, id, key, v2);
    ys, w5 := CommitRun(ys, w3, h2, h);
    RaceLost(w, h, key, v, v1, h2, v2, w2, w3, w5.log);
  }

  lemma {:induction false} RaceLost(w: World, h: nat, key: Key, v: string, v1: string, h2: nat, v2: string, w2: World,
                                    w3: World, log: seq<Entered>)
    requires Inv(w) && Forgets(w, h, key) && h != h2 && OneSource(w.log, key, v) && v1 != v && v2 != v
    requires Blinded(w, h, key, v, v1, w2)
    requires Began(w2, h2, key, Update(key, v, v2), [ReadEntry(key, w2.m.records[key].version)], v2, w3)
    requires log == Next(Next(w3, DoCommit(h2)), DoCommit(h)).log
    ensures Unserializable(log)
  {
    RacedFrom(w, h, key, v, v1, h2, v2, w2, w3);
    BothCommit(w, h, h2, key, v, v1, v2, w3, log);
    RaceUpdates(w, h, h2, key, v, v1, v2, w3, log);
  }

  // A value longer than everything the logged transactions leave in a key.
  lemma {:induction false} FreshValue(log: seq<Entered>, key: Key) returns (u: string)
    ensures u != "" && forall i :: 0 <= i < |log| ==> !Leaves(log[i], key, u)
  {
    u := "x";
    var n := 0;
    while n < |log|
      invariant 0 <= n <= |log| && u != ""
      invariant forall i :: 0 <= i < n && key in Written(log[i].ops) ==> |Written(log[i].ops)[key]| < |u|
    {
      if key in Written(log[n].ops) {
        u := u + Written(log[n].ops)[key];
      }
      n := n + 1;
    }
  }

  // Another transaction writes a value of the key and commits.
  function PinSteps(h: nat, id: int, key: Key, u: string): seq<Step> {
    [DoBegin(h, id), DoWrite(h, key, u), DoCommit(h)]
  }

  lemma {:induction false} BlindWrite(w: World, h: nat, id: int, key: Key, u: string, w2: World)
    requires |w.m.active| < MAX_TXN && w2 == Next(Next(w, DoBegin(h, id)), DoWrite(h, key, u))
    ensures Began(w, h, key, [Write(key, u)], [], u, w2)
  {
    assert Put([], key, u) == [Entry(key, u)];
    assert [] + [Write(key, u)] == [Write(key, u)];
  }

  lemma {:induction false} BlindCommit(w: World, h: nat, key: Key, u: string, w2: World, w3: World)
    requires key in EnsureRecord(w.m.records, key, "") && ActiveEmpty(w.m)
    requires Began(w, h, key, [Write(key, u)], [], u, w2)
    requires w3 == Next(w2, DoCommit(h))
    ensures w3.m.records == EnsureRecord(w.m.records, key, u)[key := Rec(u, w.m.version + 1)]
    ensures w3.m.active == w2.m.active && w3.log == w.log + [Entered(w.m.version + 1, [Write(key, u)])]
    ensures forall g :: g in w2.txns && g != h ==> g in w3.txns && w3.txns[g] == w2.txns[g]
    ensures StepFits(w2, DoCommit(h))
  {
    BlindValid(w2.m, w2.txns[h].t);
    BlindInstall(w.m.records, key, u, w2.m.version);
  }

  lemma {:induction false} BlindValid(m: Manager, t: Txn)
    requires t.readSet == [] && ActiveEmpty(m)
    ensures Valid(m, t)
  {
  }

  lemma {:induction false} BlindInstall(records: map<Key, Rec>, key: Key, u: string, ts: nat)
    requires key in EnsureRecord(records, key, "")
    ensures Install(records, [Entry(key, u)], 1, ts) == EnsureRecord(records, key, u)[key := Rec(u, ts)]
    ensures Room(records, [Entry(key, u)], ts)
  {
    assert Install(records, [Entry(key, u)], 0, ts) == records;
  }

  lemma {:induction false} Pinned(w: World, h: nat, id: int, key: Key, u: string, w2: World, w3: World)
    requires |w.m.active| < MAX_TXN && key in EnsureRecord(w.m.records, key, "") && ActiveEmpty(w.m)
    requires w2 == Next(Next(w, DoBegin(h, id)), DoWrite(h, key, u)) && w3 == Next(w2, DoCommit(h))
    ensures w3.m.records == EnsureRecord(w.m.records, key, u)[key := Rec(u, w.m.version + 1)]
    ensures |w3.m.active| == |w.m.active| + 1 && w3.log == w.log + [Entered(w.m.version + 1, [Write(key, u)])]
    ensures forall g :: g in w.txns && g != h ==> g in w3.txns && w3.txns[g] == w.txns[g]
    ensures StepFits(w2, DoCommit(h))
  {
    BlindWrite(w, h, id, key, u, w2);
    BlindCommit(w, h, key, u, w2, w3);
  }

  ghost predicate ActiveEmpty(m: Manager) { forall i :: 0 <= i < |m.active| ==> m.active[i].readSet == [] }

  lemma {:induction false} PinRun(xs: seq<Step>, h: nat, id: int, key: Key, u: string, w2: World, w3: World)
    returns (ys: seq<Step>)
    requires Fits(xs) && w2 == Next(Next(Exec(xs), DoBegin(h, id)), DoWrite(h, key, u)) && w3 == Next(w2, DoCommit(h))
    requires StepFits(w2, DoCommit(h))
    ensures ys == xs + PinSteps(h, id, key, u) && Exec(ys) == w3 && Fits(ys)
  {
    var w1 := Next(Exec(xs), DoBegin(h, id));
    var zs := Extend(xs, Exec(xs), DoBegin(h, id), w1);
    zs := Extend(zs, w1, DoWrite(h, key, u), w2);
    ys := Extend(zs, w2, DoCommit(h), w3);
  }

  // From every run that fits, a read that will not be remembered has a
  // continuation that no serial order of the committed transactions explains.
  lemma {:induction false} ForgottenReadBreaksSerializability(xs: seq<Step>, h: nat, key: Key, h2: nat, id: int)
    returns (ys: seq<Step>)
    requires Fits(xs) && Forgets(Exec(xs), h, key) && h != h2 && |Exec(xs).m.active| + 2 <= MAX_TXN
    ensures xs <= ys && Unserializable(Exec(ys).log)
  {
    var w := Exec(xs);
    ExecKeepsInv(xs);
    var u := FreshValue(w.log, key);
    var w2 := Next(Next(w, DoBegin(h2, id)), DoWrite(h2, key, u));
    var w3 := Next(w2, DoCommit(h2));
    Pinned(w, h2, id, key, u, w2, w3);
    var zs := PinRun(xs, h2, id, key, u, w2, w3);
    assert Forgets(w3, h, key) && OneSource(w3.log, key, u) by {
      assert w3.txns[h] == w.txns[h];
      PinnedOnce(w.log, w.m.version + 1, key, u, w3.log);
    }
    ys := ForgottenReadLosesUpdate(zs, h, key, u, u + "1", h2, id, u + "2");
  }

  lemma {:induction false} PinnedOnce(log: seq<Entered>, ts: nat, key: Key, u: string, log': seq<Entered>)
    requires u != "" && (forall i :: 0 <= i < |log| ==> !Leaves(log[i], key, u))
    requires log' == log + [Entered(ts, [Write(key, u)])]
    ensures OneSource(log', key, u)
  {
    assert forall i :: 0 <= i < |log| ==> log'[i] == log[i];
  }

  // One transaction that has read key "a" k times.
  const FIRST := Txn(1, ReadPhase, 1, 0, [], [])

  function Reader(k: nat): Handle {
    Handle(FIRST.(readSet := seq(k, _ => ReadEntry("a", 0))), seq(k, _ => Read("a", "")))
  }

  function ReaderWorld(k: nat): World {
    World(Manager(if k == 0 then map[] else map["a" := Rec("", 0)], 2, [FIRST]), map[0 := Reader(k)], [])
  }

  lemma {:induction false} ReadAgain(k: nat)
    requires k < MAX_KEYS
    ensures Next(ReaderWorld(k), DoRead(0, "a")) == ReaderWorld(k + 1) && StepFits(ReaderWorld(k), DoRead(0, "a"))
  {
    var w, t := ReaderWorld(k), Reader(k).t;
    var records := EnsureRecord(w.m.records, "a", "");
    assert records == map["a" := Rec("", 0)];
    assert t.readSet + [ReadEntry("a", 0)] == Reader(k + 1).t.readSet;
    assert Reader(k).ops + [Read("a", "")] == Reader(k + 1).ops;
    assert map[0 := Reader(k)][0 := Reader(k + 1)] == map[0 := Reader(k + 1)];
  }

  lemma {:induction false} ReadMore(xs: seq<Step>, k: nat) returns (ys: seq<Step>)
    requires k < MAX_KEYS && Exec(xs) == ReaderWorld(k) && Fits(xs)
    ensures Exec(ys) == ReaderWorld(k + 1) && Fits(ys)
  {
    ReadAgain(k);
    ys := Extend(xs, ReaderWorld(k), DoRead(0, "a"), ReaderWorld(k + 1));
  }

  lemma {:induction false} BeginReader() returns (xs: seq<Step>)
    ensures Exec(xs) == ReaderWorld(0) && Fits(xs)
  {
    assert Reader(0) == Handle(FIRST, []) && map[][0 := Reader(0)] == map[0 := Reader(0)];
    xs := Extend([], Init(), DoBegin(0, 1), ReaderWorld(0));
  }

  lemma {:induction false} FillReadSet(limit: nat) returns (xs: seq<Step>)
    requires limit <= MAX_KEYS
    ensures Exec(xs) == ReaderWorld(limit) && Fits(xs)
  {
    if limit == 0 {
      xs := BeginReader();
    } else {
      var ys := FillReadSet(limit - 1);
      xs := ReadMore(ys, limit - 1);
    }
  }

  // Such a read can be reached: the 65th read of one transaction.
  lemma {:induction false} FullReadSetForgets() returns (ys: seq<Step>)
    ensures Unserializable(Exec(ys).log)
  {
    var n := MAX_KEYS;
    var xs := FillReadSet(n);
    assert Forgets(Exec(xs), 0, "b");
    ys := ForgottenReadLosesUpdate(xs, 0, "b", "", "x", 1, 2, "y");
  }

  // Forward validation compares with copies taken at begin, whose read sets
  // are empty, so in no run does it reject anything.
  lemma {:induction false} ForwardValidationNeverRejects(steps: seq<Step>, t: Txn)
    ensures ForwardValid(Exec(steps).m.active, t)
  {
    ActiveCopiesAreEmpty(steps);
  }

  lemma {:induction false} ActiveCopiesAreEmpty(steps: seq<Step>)
    ensures forall i :: 0 <= i < |Exec(steps).m.active| ==> Exec(steps).m.active[i].readSet == []
  {
    if steps != [] {
      ActiveCopiesAreEmpty(steps[..|steps| - 1]);
    }
  }

  // ---------- The code ----------

  class OccTransaction {
    var id: int
    var phase: Phase
    var startTs: nat
    var commitTs: nat
    var readSet: seq<ReadEntry>
    var writeSet: Table<Key, string>
    var aborts: nat

    function View(): Txn
      reads this
    {
      Txn(id, phase, startTs, commitTs, readSet, writeSet)
    }

    method BufferWrite(key: Key, value: string) returns (ok: bool)
      modifies this
      ensures View() == WriteEffect(old(View()), key, value) && ok == CanWrite(old(View()))
      ensures aborts == old(aborts)
    {
      if phase != ReadPhase || |writeSet| >= MAX_KEYS {
        return false;
      }
      var i := FindIndex(writeSet, key);
      if i >= 0 {
        writeSet := writeSet[i := Entry(key, value)];
      } else {
        writeSet := writeSet + [Entry(key, value)];
      }
      ok := true;
    }

    method Abort()
      modifies this
      ensures View() == old(View()).(phase := Aborted) && aborts == old(aborts) + 1
    {
      phase := Aborted;
      aborts := aborts + 1;
    }
  }

  class OccManager {
    var records: Table<Key, Rec>
    var version: nat
    var active: seq<Txn>
    var lowWatermark: nat
    var highWatermark: nat

    ghost predicate Ok()
      reads this
    {
      Distinct(records)
    }

    ghost function View(): Manager
      reads this
    {
      Manager(AsMap(records), version, active)
    }

    constructor ()
      ensures Ok() && View() == Init().m && lowWatermark == highWatermark == 1
    {
      records, version, active, lowWatermark, highWatermark := [], 1, [], 1, 1;
    }

    method EnsureRecordAt(key: Key, init: string) returns (i: int)
      requires Ok()
      modifies `records
      ensures Ok() && AsMap(records) == EnsureRecord(old(AsMap(records)), key, init) && i == Find(records, key)
    {
      i := FindIndex(records, key);
      AsMapSize(records);
      if i >= 0 {
        return;
      }
      if |records| >= MAX_KEYS {
        return -1;
      }
      i := |records|;
      PutAsMap(records, key, Rec(init, 0));
      records := records + [Entry(key, Rec(init, 0))];
      FindUnique(records, key, i);
    }

    method BeginTxn(t: OccTransaction, id: int) returns (ok: bool)
      requires Ok()
      modifies `version, `active, t
      ensures Ok() && ok == (|old(active)| < MAX_TXN)
      ensures ok ==> (View(), t.View()) == Begin(old(View()), id)
      ensures !ok ==> View() == old(View()) && t.View() == old(t.View())
    {
      if |active| >= MAX_TXN {
        return false;
      }
      t.id, t.phase, t.startTs, t.commitTs, t.readSet, t.writeSet, t.aborts := id, ReadPhase, version, 0, [], [], 0;
      version := version + 1;
      active := active + [t.View()];
      ok := true;
    }

    method ReadKey(t: OccTransaction, key: Key) returns (r: ReadResult)
      requires Ok()
      modifies `records, t
      ensures Ok() && (View(), t.View()) == ReadEffect(old(View()), old(t.View()), key)
      ensures r == ReadValue(old(View()), old(t.View()), key)
    {
      if t.phase != ReadPhase {
        return Refused;
      }
      var i := FindIndex(t.writeSet, key);
      if i >= 0 {
        return Value(t.writeSet[i].value, true);
      }
      i := EnsureRecordAt(key, "");
      if i < 0 {
        return Refused;
      }
      r := Value(records[i].value.value, |t.readSet| < MAX_KEYS);
      if |t.readSet| < MAX_KEYS {
        t.readSet := t.readSet + [ReadEntry(key, records[i].value.version)];
      }
    }

    method BackwardValidation(t: OccTransaction) returns (ok: bool)
      ensures ok == BackwardValid(AsMap(records), t.readSet)
    {
      var i := 0;
      while i < |t.readSet|
        invariant 0 <= i <= |t.readSet| && BackwardValid(AsMap(records), t.readSet[..i])
      {
        var x := FindIndex(records, t.readSet[i].key);
        if x >= 0 && records[x].value.version > t.readSet[i].version {
          return false;
        }
        i := i + 1;
      }
      ok := true;
    }

    method ForwardValidation(t: OccTransaction) returns (ok: bool)
      ensures ok == ForwardValid(active, t.View())
    {
      var i := 0;
      while i < |active|
        invariant 0 <= i <= |active| && ForwardValid(active[..i], t.View())
      {
        if active[i].id != t.id && active[i].phase != Aborted {
          var overlap := ReadsAWrite(active[i], t);
          if overlap {
            assert !ForwardValid(active, t.View());
            return false;
          }
        }
        i := i + 1;
      }
      assert active[..i] == active;
      ok := true;
    }

    method ReadsAWrite(other: Txn, t: OccTransaction) returns (overlap: bool)
      ensures overlap == exists k, r :: 0 <= k < |t.writeSet| && 0 <= r < |other.readSet|
                                        && t.writeSet[k].key == other.readSet[r].key
    {
      var k := 0;
      while k < |t.writeSet|
        invariant 0 <= k <= |t.writeSet|
        invariant forall j, r :: 0 <= j < k && 0 <= r < |other.readSet| ==>
                    t.writeSet[j].key != other.readSet[r].key
      {
        var r := 0;
        while r < |other.readSet|
          invariant 0 <= r <= |other.readSet|
          invariant forall j :: 0 <= j < r ==> t.writeSet[k].key != other.readSet[j].key
        {
          if t.writeSet[k].key == other.readSet[r].key {
            return true;
          }
          r := r + 1;
        }
        k := k + 1;
      }
      overlap := false;
    }

    method ValidateTxn(t: OccTransaction) returns (ok: bool)
      requires Ok()
      modifies t
      ensures t.View() == Validate(View(), old(t.View())) && ok == Valid(View(), old(t.View()))
    {
      t.phase := ValidatePhase;
      ok := BackwardValidation(t);
      if ok {
        ok := ForwardValidation(t);
      }
      t.phase := if ok then WritePhase else Aborted;
    }

    method CommitTxn(t: OccTransaction) returns (ok: bool)
      requires Ok()
      modifies this, t
      ensures Ok() && (View(), t.View()) == Commit(old(View()), old(t.View()))
      ensures ok == Valid(old(View()), old(t.View()))
      ensures if ok then lowWatermark == old(highWatermark) && highWatermark == version
              else lowWatermark == old(lowWatermark) && highWatermark == old(highWatermark)
    {
      ok := ValidateTxn(t);
      if !ok {
        t.phase := Aborted;
        return;
      }
      t.commitTs := version;
      version := version + 1;
      InstallWrites(t);
      t.phase := Committed;
      lowWatermark := highWatermark;
      highWatermark := version;
    }

    method InstallWrites(t: OccTransaction)
      requires Ok()
      modifies `records
      ensures Ok() && AsMap(records) == Install(old(AsMap(records)), t.writeSet, |t.writeSet|, t.commitTs)
    {
      var i := 0;
      while i < |t.writeSet|
        invariant 0 <= i <= |t.writeSet| && Ok()
        invariant AsMap(records) == Install(old(AsMap(records)), t.writeSet, i, t.commitTs)
      {
        var e := t.writeSet[i];
        var x := EnsureRecordAt(e.key, e.value);
        if x >= 0 {
          PutAsMap(records, e.key, Rec(e.value, t.commitTs));
          records := records[x := Entry(e.key, Rec(e.value, t.commitTs))];
        }
        i := i + 1;
      }
    }
  }
}
