/** Snapshot tables: rows keyed by (entity key, height), written by upsert and read newest first. */
module Tables {
  datatype Option<+T> = None | Some(value: T)

  type Table<K(==), V> = map<(K, nat), V>

  /** The list has no repetitions. */
  ghost predicate Distinct<T>(s: seq<T>) {
    forall i, j :: 0 <= i < j < |s| ==> s[i] != s[j]
  }

  /** What a batch of upserts leaves behind for each key: the last statement wins. */
  function Collect<K(==), V>(batch: seq<(K, V)>): map<K, V> {
    if batch == [] then map[]
    else
      var last := batch[|batch| - 1];
      Collect(batch[..|batch| - 1])[last.0 := last.1]
  }

  lemma CollectSnoc<K, V>(batch: seq<(K, V)>, x: (K, V))
    ensures Collect(batch + [x]) == Collect(batch)[x.0 := x.1]
  {
    assert (batch + [x])[..|batch|] == batch;
  }

  /** What a batch of inserts leaves behind for each key when the first statement stays. */
  function First<K(==), V>(batch: seq<(K, V)>): map<K, V> {
    if batch == [] then map[]
    else
      var rest, last := First(batch[..|batch| - 1]), batch[|batch| - 1];
      if last.0 in rest then rest else rest[last.0 := last.1]
  }

  lemma FirstSnoc<K, V>(batch: seq<(K, V)>, x: (K, V))
    ensures First(batch + [x]) == if x.0 in First(batch) then First(batch) else First(batch)[x.0 := x.1]
  {
    assert (batch + [x])[..|batch|] == batch;
  }

  /** The first statements speak of the same keys as the last ones, and each is a statement. */
  lemma {:induction false} FirstKeys<K, V>(batch: seq<(K, V)>, k: K)
    ensures k in First(batch) <==> k in Collect(batch)
    ensures k in First(batch) ==> (k, First(batch)[k]) in batch
    ensures k in Collect(batch) ==> (k, Collect(batch)[k]) in batch
  {
    if batch != [] {
      var n := |batch| - 1;
      FirstKeys(batch[..n], k);
      assert batch[n] in batch && forall x :: x in batch[..n] ==> x in batch;
    }
  }

  /** What First leaves behind for a key is the statement that comes first. */
  lemma {:induction false} FirstStatement<K, V>(batch: seq<(K, V)>, i: nat)
    requires i < |batch| && forall j :: 0 <= j < i ==> batch[j].0 != batch[i].0
    ensures batch[i].0 in First(batch) && First(batch)[batch[i].0] == batch[i].1
  {
    var n := |batch| - 1;
    if i < n {
      FirstStatement(batch[..n], i);
    } else {
      FirstKeys(batch[..n], batch[n].0);
    }
  }

  /** And what Collect leaves behind is the one that comes last. */
  lemma {:induction false} LastStatement<K, V>(batch: seq<(K, V)>, i: nat)
    requires i < |batch| && forall j :: i < j < |batch| ==> batch[j].0 != batch[i].0
    ensures batch[i].0 in Collect(batch) && Collect(batch)[batch[i].0] == batch[i].1
  {
    var n := |batch| - 1;
    if i < n {
      LastStatement(batch[..n], i);
    }
  }

  ghost predicate DistinctKeys<K, V>(batch: seq<(K, V)>) {
    forall i, j :: 0 <= i < j < |batch| ==> batch[i].0 != batch[j].0
  }

  lemma {:induction false} CollectKeys<K, V>(batch: seq<(K, V)>, k: K)
    ensures k in Collect(batch) <==> exists i :: 0 <= i < |batch| && batch[i].0 == k
    ensures k in Collect(batch) ==> exists i :: 0 <= i < |batch| && batch[i] == (k, Collect(batch)[k])
  {
    if batch != [] {
      var n := |batch| - 1;
      CollectKeys(batch[..n], k);
      if batch[n].0 != k && k in Collect(batch[..n]) {
        var i :| 0 <= i < n && batch[..n][i] == (k, Collect(batch[..n])[k]);
        assert batch[i] == (k, Collect(batch)[k]);
      }
    }
  }

  /** Later statements win over earlier ones. */
  lemma {:induction false} CollectConcat<K, V>(a: seq<(K, V)>, b: seq<(K, V)>)
    ensures Collect(a + b) == Collect(a) + Collect(b)
  {
    if b == [] {
      assert a + b == a;
    } else {
      var n := |b| - 1;
      CollectConcat(a, b[..n]);
      assert (a + b)[..|a + b| - 1] == a + b[..n];
    }
  }

  /** With one statement a key, every statement is what the batch leaves behind. */
  lemma CollectDistinct<K, V>(batch: seq<(K, V)>, i: nat)
    requires DistinctKeys(batch) && i < |batch|
    ensures batch[i].0 in Collect(batch) && Collect(batch)[batch[i].0] == batch[i].1
  {
    CollectKeys(batch, batch[i].0);
  }

  /** One transaction's upserts at height h, in statement order. */
  function Upsert<K(==), V>(t: Table<K, V>, h: nat, batch: seq<(K, V)>): Table<K, V> {
    if batch == [] then t
    else
      var last := batch[|batch| - 1];
      Upsert(t, h, batch[..|batch| - 1])[(last.0, h) := last.1]
  }

  lemma UpsertSnoc<K, V>(t: Table<K, V>, h: nat, batch: seq<(K, V)>, x: (K, V))
    ensures Upsert(t, h, batch + [x]) == Upsert(t, h, batch)[(x.0, h) := x.1]
  {
    assert (batch + [x])[..|batch|] == batch;
  }

  /** An upsert batch touches the rows of its height only, and leaves there what it collects to. */
  lemma {:induction false} UpsertRow<K, V>(t: Table<K, V>, h: nat, batch: seq<(K, V)>, k: K, g: nat)
    ensures (k, g) in Upsert(t, h, batch) <==> (k, g) in t || (g == h && k in Collect(batch))
    ensures g == h && k in Collect(batch) ==> Upsert(t, h, batch)[(k, g)] == Collect(batch)[k]
    ensures (k, g) in t && !(g == h && k in Collect(batch)) ==> Upsert(t, h, batch)[(k, g)] == t[(k, g)]
  {
    if batch != [] {
      UpsertRow(t, h, batch[..|batch| - 1], k, g);
    }
  }

  /** The row of greatest height not above h. */
  function AsOf<K(==), V>(t: Table<K, V>, k: K, h: nat): Option<V> {
    if (k, h) in t then Some(t[(k, h)])
    else if h == 0 then None
    else AsOf(t, k, h - 1)
  }

  ghost predicate IsNewest<K, V>(t: Table<K, V>, k: K, m: nat) {
    (k, m) in t && forall n :: (k, n) in t ==> n <= m
  }

  /** The latest view: for each key, its row of greatest height. */
  ghost function Latest<K, V>(t: Table<K, V>, k: K): Option<V> {
    if m: nat :| IsNewest(t, k, m) then Some(t[(k, m)]) else None
  }

  lemma {:induction false} AsOfNewest<K, V>(t: Table<K, V>, k: K, m: nat, h: nat)
    requires (k, m) in t && m <= h && forall n :: m < n <= h ==> (k, n) !in t
    ensures AsOf(t, k, h) == Some(t[(k, m)])
    decreases h
  {
    if m < h {
      AsOfNewest(t, k, m, h - 1);
    }
  }

  /** AsOf finds a row exactly when there is one not above h, and then the one of greatest height. */
  lemma {:induction false} AsOfWitness<K, V>(t: Table<K, V>, k: K, h: nat)
    ensures AsOf(t, k, h).None? <==> forall n :: n <= h ==> (k, n) !in t
    ensures AsOf(t, k, h).Some? ==> exists m :: m <= h && (k, m) in t && AsOf(t, k, h).value == t[(k, m)] &&
                                                forall n :: m < n <= h ==> (k, n) !in t
    decreases h
  {
    if (k, h) !in t && h > 0 {
      AsOfWitness(t, k, h - 1);
    }
  }

  lemma {:induction false} NewestExists(s: set<nat>) returns (m: nat)
    requires s != {}
    ensures m in s && forall n :: n in s ==> n <= m
    decreases |s|
  {
    m :| m in s;
    if s != {m} {
      var rest := s - {m};
      assert s == rest + {m};
      assert rest < s;
      var r := NewestExists(rest);
      if m < r { m := r; }
    }
  }

  /** With no row above h, the latest view and the as-of reading at h agree. */
  lemma LatestIsAsOf<K, V>(t: Table<K, V>, k: K, h: nat)
    requires forall n :: (k, n) in t ==> n <= h
    ensures Latest(t, k) == AsOf(t, k, h)
  {
    AsOfWitness(t, k, h);
    if AsOf(t, k, h).Some? {
      var m :| m <= h && (k, m) in t && AsOf(t, k, h).value == t[(k, m)] && forall n :: m < n <= h ==> (k, n) !in t;
      assert IsNewest(t, k, m);
    }
  }

  /** A key with a row is in the latest view. */
  lemma LatestExists<K, V>(t: Table<K, V>, k: K, n: nat)
    requires (k, n) in t
    ensures Latest(t, k).Some?
  {
    var heights := set r | r in t.Keys && r.0 == k :: r.1;
    assert forall r :: r in t.Keys && r.0 == k ==> r.1 in heights;
    assert (k, n) in t.Keys && (k, n).1 in heights;
    var m := NewestExists(heights);
    forall i | (k, i) in t ensures i <= m {
      assert (k, i) in t.Keys && (k, i).1 in heights;
    }
    assert IsNewest(t, k, m);
  }

  /** Executes a batch of upserts, one statement after the other. */
  method InsertBatch<K(==), V>(t: Table<K, V>, h: nat, batch: seq<(K, V)>) returns (r: Table<K, V>)
    ensures r == Upsert(t, h, batch)
  {
    r := t;
    for i := 0 to |batch|
      invariant r == Upsert(t, h, batch[..i])
    {
      assert batch[..i + 1] == batch[..i] + [batch[i]];
      UpsertSnoc(t, h, batch[..i], batch[i]);
      r := r[(batch[i].0, h) := batch[i].1];
    }
    assert batch[..|batch|] == batch;
  }
}
