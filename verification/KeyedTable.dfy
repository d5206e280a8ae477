/**
 * The keyed arrays of the transaction modules: entries are found by a linear
 * search from the front, updated in place and appended at the end.
 */
module KeyedTable {

  datatype Entry<K, V> = Entry(key: K, value: V)

  type Table<K, V> = seq<Entry<K, V>>

  // The index of the first entry with the key, or -1.
  function Find<K(==), V>(t: Table<K, V>, k: K): (i: int)
    ensures -1 <= i < |t|
    ensures i >= 0 ==> t[i].key == k
    ensures forall j :: 0 <= j < (if i < 0 then |t| else i) ==> t[j].key != k
  {
    FindFrom(t, k, 0)
  }

  function FindFrom<K(==), V>(t: Table<K, V>, k: K, from: nat): (i: int)
    requires from <= |t| && forall j :: 0 <= j < from ==> t[j].key != k
    ensures -1 <= i < |t|
    ensures i >= 0 ==> t[i].key == k
    ensures forall j :: 0 <= j < (if i < 0 then |t| else i) ==> t[j].key != k
    decreases |t| - from
  {
    if from == |t| then -1 else if t[from].key == k then from else FindFrom(t, k, from + 1)
  }

  predicate Has<K(==), V>(t: Table<K, V>, k: K) { Find(t, k) >= 0 }

  function Get<K(==), V>(t: Table<K, V>, k: K): V
    requires Has(t, k)
  {
    t[Find(t, k)].value
  }

  function Put<K(==), V>(t: Table<K, V>, k: K, v: V): Table<K, V> {
    if Has(t, k) then t[Find(t, k) := Entry(k, v)] else t + [Entry(k, v)]
  }

  ghost predicate Distinct<K, V>(t: Table<K, V>) {
    forall i, j :: 0 <= i < j < |t| ==> t[i].key != t[j].key
  }

  lemma {:induction false} FindUnique<K, V>(t: Table<K, V>, k: K, i: nat)
    requires i < |t| && t[i].key == k && forall j :: 0 <= j < i ==> t[j].key != k
    ensures Find(t, k) == i
  {
    assert t[i].key == k;
  }

  // Putting an entry in leaves the other keys where they were.
  lemma {:induction false} PutFind<K, V>(t: Table<K, V>, k: K, v: V, x: K)
    ensures Find(Put(t, k, v), x) == if x != k || Has(t, k) then Find(t, x) else |t|
  {
    var r, i := Put(t, k, v), Find(t, x);
    if x == k || i >= 0 {
      FindUnique(r, x, if i >= 0 then i else |t|);
    } else {
      assert forall j :: 0 <= j < |r| ==> r[j].key != x;
    }
  }

  // A table with one entry put in is the old table but for that key.
  lemma {:induction false} PutEffect<K, V>(t: Table<K, V>, k: K, v: V, x: K)
    ensures Has(Put(t, k, v), x) <==> x == k || Has(t, x)
    ensures Has(Put(t, k, v), x) ==> Get(Put(t, k, v), x) == if x == k then v else Get(t, x)
    ensures Distinct(t) ==> Distinct(Put(t, k, v))
  {
    PutFind(t, k, v, x);
  }

  // A table as a finite map.
  ghost function AsMap<K, V>(t: Table<K, V>): map<K, V> {
    map k | k in (set i | 0 <= i < |t| :: t[i].key) :: Get(t, k)
  }

  lemma {:induction false} AsMapHas<K, V>(t: Table<K, V>, k: K)
    ensures k in AsMap(t) <==> Has(t, k)
    ensures Has(t, k) ==> AsMap(t)[k] == Get(t, k)
  {
    assert Has(t, k) ==> t[Find(t, k)].key == k;
  }

  lemma {:induction false} PutAsMap<K, V>(t: Table<K, V>, k: K, v: V)
    ensures AsMap(Put(t, k, v)) == AsMap(t)[k := v]
    ensures Distinct(t) ==> Distinct(Put(t, k, v))
  {
    var a, b := AsMap(Put(t, k, v)), AsMap(t)[k := v];
    forall x ensures (x in a <==> x in b) && (x in a ==> a[x] == b[x]) {
      PutEffect(t, k, v, x);
    }
    PutEffect(t, k, v, k);
    assert a.Keys == b.Keys;
  }

  lemma {:induction false} AsMapSize<K, V>(t: Table<K, V>)
    requires Distinct(t)
    ensures |AsMap(t)| == |t|
  {
    if t != [] {
      var e, rest := t[|t| - 1], t[..|t| - 1];
      AsMapSize(rest);
      assert Put(rest, e.key, e.value) == t;
      PutAsMap(rest, e.key, e.value);
      assert e.key !in AsMap(rest);
    }
  }

  method FindIndex<K(==), V>(t: Table<K, V>, k: K) returns (i: int)
    ensures i == Find(t, k)
  {
    i := 0;
    while i < |t|
      invariant 0 <= i <= |t|
      invariant forall j :: 0 <= j < i ==> t[j].key != k
    {
      if t[i].key == k {
        FindUnique(t, k, i);
        return;
      }
      i := i + 1;
    }
    i := -1;
  }
}
