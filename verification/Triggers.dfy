/**
 The rows of one chain in a global table. They are written by triggers that fire when a row is inserted
 into the chain's own table, and not when an upsert finds the row there and updates it.
 */
module Triggers {
  import opened Tables
  import opened ChangeDetection

  /** The global rows after one transaction's upserts into the chain's table t. */
  function Fire<K(==), V>(t: Table<K, V>, global: Table<K, V>, h: nat, batch: seq<(K, V)>): Table<K, V> {
    if batch == [] then global
    else
      var n := |batch| - 1;
      var g, last := Fire(t, global, h, batch[..n]), batch[n];
      if (last.0, h) in Upsert(t, h, batch[..n]) then g else g[(last.0, h) := last.1]
  }

  lemma FireSnoc<K, V>(t: Table<K, V>, global: Table<K, V>, h: nat, batch: seq<(K, V)>, x: (K, V))
    ensures Fire(t, global, h, batch + [x]) ==
            if (x.0, h) in Upsert(t, h, batch) then Fire(t, global, h, batch) else Fire(t, global, h, batch)[(x.0, h) := x.1]
  {
    assert (batch + [x])[..|batch|] == batch;
  }

  lemma {:induction false} FireRow<K, V>(t: Table<K, V>, global: Table<K, V>, h: nat, batch: seq<(K, V)>, k: K, g: nat)
    ensures (k, g) in Fire(t, global, h, batch) <==> (k, g) in global || (g == h && (k, h) !in t && k in First(batch))
    ensures g == h && (k, h) !in t && k in First(batch) ==> Fire(t, global, h, batch)[(k, g)] == First(batch)[k]
    ensures (k, g) in global && !(g == h && (k, h) !in t && k in First(batch)) ==> Fire(t, global, h, batch)[(k, g)] == global[(k, g)]
  {
    if batch != [] {
      var n := |batch| - 1;
      FireRow(t, global, h, batch[..n], k, g);
      UpsertRow(t, h, batch[..n], batch[n].0, h);
      FirstKeys(batch[..n], batch[n].0);
    }
  }

  /**
   What a batch makes of the global rows, statement by statement: the first statement for a key that had no row at that
   height becomes its global row, and the global rows of other keys and heights stay.
   */
  lemma FirstFires<K, V>(t: Table<K, V>, global: Table<K, V>, h: nat, batch: seq<(K, V)>, i: nat, k: K, g: nat)
    requires i < |batch| && forall j :: 0 <= j < i ==> batch[j].0 != batch[i].0
    ensures (batch[i].0, h) !in t ==> (batch[i].0, h) in Fire(t, global, h, batch) && Fire(t, global, h, batch)[(batch[i].0, h)] == batch[i].1
    ensures g != h || (k, h) in t || (forall x :: x in batch ==> x.0 != k) ==>
              Lookup(Fire(t, global, h, batch), (k, g)) == Lookup(global, (k, g))
  {
    FirstStatement(batch, i);
    FireRow(t, global, h, batch, batch[i].0, h);
    FireRow(t, global, h, batch, k, g);
    FirstKeys(batch, k);
  }

  /** Executes a batch of upserts on a table with a trigger, one statement after the other. */
  method InsertMirrored<K(==), V>(t: Table<K, V>, global: Table<K, V>, h: nat, batch: seq<(K, V)>)
    returns (r: Table<K, V>, g: Table<K, V>)
    ensures r == Upsert(t, h, batch) && g == Fire(t, global, h, batch)
  {
    r, g := t, global;
    for i := 0 to |batch|
      invariant r == Upsert(t, h, batch[..i]) && g == Fire(t, global, h, batch[..i])
    {
      assert batch[..i + 1] == batch[..i] + [batch[i]];
      UpsertSnoc(t, h, batch[..i], batch[i]);
      FireSnoc(t, global, h, batch[..i], batch[i]);
      if (batch[i].0, h) !in r {
        g := g[(batch[i].0, h) := batch[i].1];
      }
      r := r[(batch[i].0, h) := batch[i].1];
    }
    assert batch[..|batch|] == batch;
  }

  /** The statements of one batch, with the height they are executed at. */
  function Dated<K, V>(h: nat, batch: seq<(K, V)>): (r: seq<((K, nat), V)>)
    ensures |r| == |batch| && forall i :: 0 <= i < |r| ==> r[i] == ((batch[i].0, h), batch[i].1)
  {
    seq(|batch|, i requires 0 <= i < |batch| => ((batch[i].0, h), batch[i].1))
  }

  lemma DatedSnoc<K, V>(h: nat, batch: seq<(K, V)>, s: seq<((K, nat), V)>)
    requires batch != []
    ensures s + Dated(h, batch) == (s + Dated(h, batch[..|batch| - 1])) + [((batch[|batch| - 1].0, h), batch[|batch| - 1].1)]
  {
  }

  /** Every statement that the deliveries of a log bring, in order. */
  ghost function Upserts<K, V>(feed: Feed<K, V>, log: seq<Delivery>): seq<((K, nat), V)> {
    if log == [] then []
    else
      var d := log[|log| - 1];
      Upserts(feed, log[..|log| - 1]) + Dated(d.height, feed(d))
  }

  lemma {:induction false} UpsertCollects<K, V>(s: seq<((K, nat), V)>, h: nat, batch: seq<(K, V)>)
    ensures Upsert(Collect(s), h, batch) == Collect(s + Dated(h, batch))
  {
    if batch == [] {
      assert s + Dated(h, batch) == s;
    } else {
      var rest, last := batch[..|batch| - 1], batch[|batch| - 1];
      UpsertCollects(s, h, rest);
      DatedSnoc(h, batch, s);
      CollectSnoc(s + Dated(h, rest), ((last.0, h), last.1));
    }
  }

  /** The rows of g that are not in t. */
  function Except<K(==), V>(g: Table<K, V>, t: Table<K, V>): Table<K, V> {
    map r | r in g && r !in t :: g[r]
  }

  lemma ExceptNext<K, V>(first: Table<K, V>, t: Table<K, V>, r: (K, nat), v: V)
    ensures Except(if r in first then first else first[r := v], t) ==
            if r in t || r in first then Except(first, t) else Except(first, t)[r := v]
  {
  }

  lemma InEither<K, V>(a: seq<(K, V)>, b: seq<(K, V)>, k: K)
    ensures k in Collect(a + b) <==> k in Collect(a) || k in First(b)
  {
    CollectConcat(a, b);
    FirstKeys(b, k);
  }

  /** A row that was there before the trigger, or that the trigger saw, does not fire it again. */
  lemma {:induction false} FireKeepsFirst<K, V>(earlier: seq<((K, nat), V)>, s: seq<((K, nat), V)>, h: nat, batch: seq<(K, V)>)
    ensures Fire(Collect(earlier + s), Except(First(s), Collect(earlier)), h, batch) == Except(First(s + Dated(h, batch)), Collect(earlier))
  {
    if batch == [] {
      assert s + Dated(h, batch) == s;
    } else {
      var rest, last := batch[..|batch| - 1], batch[|batch| - 1];
      var more, r := s + Dated(h, rest), (last.0, h);
      FireKeepsFirst(earlier, s, h, rest);
      UpsertCollects(earlier + s, h, rest);
      assert (earlier + s) + Dated(h, rest) == earlier + more;
      InEither(earlier, more, r);
      DatedSnoc(h, batch, s);
      FirstSnoc(more, (r, last.1));
      ExceptNext(First(more), Collect(earlier), r, last.1);
    }
  }

  lemma {:induction false} ReplayCollects<K, V>(feed: Feed<K, V>, log: seq<Delivery>)
    ensures Replay(feed, log) == Collect(Upserts(feed, log))
  {
    if log != [] {
      var rest, d := log[..|log| - 1], log[|log| - 1];
      ReplayCollects(feed, rest);
      UpsertCollects(Upserts(feed, rest), d.height, feed(d));
    }
  }

  /** The global rows of a chain whose table was written by the deliveries of a log: what was inserted first. */
  ghost function Global<K, V>(feed: Feed<K, V>, log: seq<Delivery>): Table<K, V> {
    First(Upserts(feed, log))
  }

  /** The same when the trigger was installed on a table, and an empty share, after an earlier log. */
  ghost function GlobalSince<K, V>(feed: Feed<K, V>, earlier: seq<Delivery>, log: seq<Delivery>): Table<K, V> {
    Except(Global(feed, log), Replay(feed, earlier))
  }

  lemma UpsertsSnoc<K, V>(feed: Feed<K, V>, log: seq<Delivery>, d: Delivery)
    ensures Upserts(feed, log + [d]) == Upserts(feed, log) + Dated(d.height, feed(d))
  {
    assert (log + [d])[..|log|] == log;
  }

  lemma Associates<T>(a: seq<T>, b: seq<T>, c: seq<T>)
    ensures (a + b) + c == a + (b + c)
  {
  }

  lemma {:induction false} UpsertsConcat<K, V>(feed: Feed<K, V>, a: seq<Delivery>, b: seq<Delivery>)
    ensures Upserts(feed, a + b) == Upserts(feed, a) + Upserts(feed, b)
  {
    if b == [] {
      assert a + b == a;
    } else {
      var rest, d := b[..|b| - 1], b[|b| - 1];
      UpsertsConcat(feed, a, rest);
      assert a + b == (a + rest) + [d] && b == rest + [d];
      UpsertsSnoc(feed, a + rest, d);
      UpsertsSnoc(feed, rest, d);
      Associates(Upserts(feed, a), Upserts(feed, rest), Dated(d.height, feed(d)));
    }
  }

  /** The triggers of one more transaction keep the global rows what they should be. */
  lemma GlobalSnoc<K, V>(feed: Feed<K, V>, earlier: seq<Delivery>, log: seq<Delivery>, d: Delivery)
    ensures GlobalSince(feed, earlier, log + [d]) ==
            Fire(Replay(feed, earlier + log), GlobalSince(feed, earlier, log), d.height, feed(d))
  {
    UpsertsSnoc(feed, log, d);
    ReplayCollects(feed, earlier);
    ReplayCollects(feed, earlier + log);
    UpsertsConcat(feed, earlier, log);
    FireKeepsFirst(Upserts(feed, earlier), Upserts(feed, log), d.height, feed(d));
  }

  /** What two batches say about a key does not differ in what p keeps of a row, nor what one of them says twice. */
  ghost predicate BatchesAgree<K, V, P>(p: V -> P, k: K, a: seq<(K, V)>, b: seq<(K, V)>) {
    forall x, y :: x in a && y in b && x.0 == y.0 == k ==> p(x.1) == p(y.1)
  }

  ghost predicate AgreeOn<K, V, P>(feed: Feed<K, V>, p: V -> P, log: seq<Delivery>, k: K) {
    forall c, d :: c in log && d in log && c.height == d.height ==> BatchesAgree(p, k, feed(c), feed(d))
  }

  /** Both are missing, or p keeps the same of them. */
  predicate SameBy<V, P(==)>(p: V -> P, a: Option<V>, b: Option<V>) {
    (a.Some? <==> b.Some?) && (a.Some? && b.Some? ==> p(a.value) == p(b.value))
  }

  function Whole<V>(): V -> V {
    (v: V) => v
  }

  lemma {:induction false} UpsertOrigin<K, V>(feed: Feed<K, V>, log: seq<Delivery>, x: ((K, nat), V)) returns (d: Delivery)
    requires x in Upserts(feed, log)
    ensures d in log && d.height == x.0.1 && (x.0.0, x.1) in feed(d)
  {
    var n := |log| - 1;
    d := log[n];
    if x in Dated(d.height, feed(d)) {
      var i :| 0 <= i < |feed(d)| && Dated(d.height, feed(d))[i] == x;
      assert feed(d)[i] == (x.0.0, x.1);
    } else {
      d := UpsertOrigin(feed, log[..n], x);
    }
  }

  /** Where the deliveries agree, the global rows of a key are the rows of the chain's own table, at every height. */
  lemma GlobalRow<K, V, P>(feed: Feed<K, V>, p: V -> P, log: seq<Delivery>, k: K, h: nat)
    requires AgreeOn(feed, p, log, k)
    ensures SameBy(p, Lookup(Global(feed, log), (k, h)), Lookup(Replay(feed, log), (k, h)))
  {
    var s := Upserts(feed, log);
    ReplayCollects(feed, log);
    FirstKeys(s, (k, h));
    if (k, h) in Collect(s) {
      var c := UpsertOrigin(feed, log, ((k, h), First(s)[(k, h)]));
      var d := UpsertOrigin(feed, log, ((k, h), Collect(s)[(k, h)]));
      assert BatchesAgree(p, k, feed(c), feed(d));
      assert (k, First(s)[(k, h)]) in feed(c) && (k, Collect(s)[(k, h)]) in feed(d);
    }
  }

  lemma SameRowsSameTable<K(!new), V, P>(p: V -> P, t: Table<K, V>, u: Table<K, V>)
    requires forall k, h: nat :: SameBy(p, Lookup(t, (k, h)), Lookup(u, (k, h)))
    ensures ProjectTable(p, t) == ProjectTable(p, u)
  {
    forall r: (K, nat)
      ensures r in t <==> r in u
      ensures r in t && r in u ==> p(t[r]) == p(u[r])
    {
      assert SameBy(p, Lookup(t, (r.0, r.1)), Lookup(u, (r.0, r.1)));
    }
  }

  lemma ProjectWhole<K, V>(t: Table<K, V>)
    ensures ProjectTable(Whole(), t) == t
  {
  }

  lemma SameDeliveriesSameKeys<K, V>(feed: Feed<K, V>, log: seq<Delivery>, log': seq<Delivery>, k: K, h: nat)
    requires SameDeliveries(log, log')
    ensures (k, h) in Replay(feed, log) <==> (k, h) in Replay(feed, log')
  {
    ReplayRow(feed, log, k, h);
    ReplayRow(feed, log', k, h);
  }

  lemma ReplayedStatement<K, V>(feed: Feed<K, V>, log: seq<Delivery>, k: K, h: nat) returns (d: Delivery)
    requires (k, h) in Replay(feed, log)
    ensures d in log && d.height == h && (k, Replay(feed, log)[(k, h)]) in feed(d)
  {
    ReplayRow(feed, log, k, h);
    d :| d in log && Writes(feed, d, k, h) && Replay(feed, log)[(k, h)] == Collect(feed(d))[k];
    FirstKeys(feed(d), k);
  }

  lemma SameDeliveriesSameRow<K, V, P>(feed: Feed<K, V>, p: V -> P, log: seq<Delivery>, log': seq<Delivery>, k: K, h: nat)
    requires SameDeliveries(log, log') && AgreeOn(feed, p, log, k)
    ensures SameBy(p, Lookup(Global(feed, log), (k, h)), Lookup(Global(feed, log'), (k, h)))
  {
    SameDeliveriesSameKeys(feed, log, log', k, h);
    GlobalRow(feed, p, log, k, h);
    GlobalRow(feed, p, log', k, h);
    if (k, h) in Replay(feed, log) {
      var c := ReplayedStatement(feed, log, k, h);
      var d := ReplayedStatement(feed, log', k, h);
      assert BatchesAgree(p, k, feed(c), feed(d));
    }
  }

  /** Where all deliveries agree, the global rows do not depend on their order and repetitions, in the columns that p keeps. */
  lemma GlobalOrderIndependent<K(!new), V, P>(feed: Feed<K, V>, p: V -> P, earlier: seq<Delivery>, log: seq<Delivery>,
                                              earlier': seq<Delivery>, log': seq<Delivery>)
    requires SameDeliveries(earlier, earlier') && SameDeliveries(log, log') && forall k :: AgreeOn(feed, p, log, k)
    ensures ProjectTable(p, GlobalSince(feed, earlier, log)) == ProjectTable(p, GlobalSince(feed, earlier', log'))
  {
    forall k, h: nat
      ensures SameBy(p, Lookup(GlobalSince(feed, earlier, log), (k, h)), Lookup(GlobalSince(feed, earlier', log'), (k, h)))
    {
      SameDeliveriesSameKeys(feed, earlier, earlier', k, h);
      SameDeliveriesSameRow(feed, p, log, log', k, h);
    }
    SameRowsSameTable(p, GlobalSince(feed, earlier, log), GlobalSince(feed, earlier', log'));
  }

  /** With an earlier log, the global rows are those of the chain's own rows that the earlier log had not written. */
  lemma GlobalSinceRow<K, V, P>(feed: Feed<K, V>, p: V -> P, earlier: seq<Delivery>, log: seq<Delivery>, k: K, h: nat)
    requires AgreeOn(feed, p, earlier + log, k)
    ensures SameBy(p, Lookup(GlobalSince(feed, earlier, log), (k, h)), Lookup(Except(Replay(feed, earlier + log), Replay(feed, earlier)), (k, h)))
  {
    assert forall d :: d in log ==> d in earlier + log;
    GlobalRow(feed, p, log, k, h);
    ReplayCollects(feed, earlier);
    ReplayCollects(feed, log);
    ReplayCollects(feed, earlier + log);
    UpsertsConcat(feed, earlier, log);
    CollectConcat(Upserts(feed, earlier), Upserts(feed, log));
  }

  ghost predicate NothingAbove(log: seq<Delivery>, n: nat) {
    forall d :: d in log ==> d.height <= n
  }

  /** The key's newest row in t, if there is one, is in g and looks the same in the columns that p keeps. */
  ghost predicate NewestIn<K, V, P>(p: V -> P, t: Table<K, V>, g: Table<K, V>, k: K) {
    forall m: nat :: IsNewest(t, k, m) ==> (k, m) in g && p(g[(k, m)]) == p(t[(k, m)])
  }

  /** Where g holds no other rows of the key than t does, it reads as t does if it has t's newest row. */
  lemma NewestReads<K, V, P>(p: V -> P, t: Table<K, V>, g: Table<K, V>, k: K)
    requires NewestIn(p, t, g, k) && forall m: nat :: (k, m) in g ==> (k, m) in t
    ensures SameBy(p, Latest(g, k), Latest(t, k))
  {
    if m: nat :| (k, m) in t {
      LatestExists(t, k, m);
      var newest: nat :| IsNewest(t, k, newest);
      assert IsNewest(g, k, newest);
    }
  }

  /**
   The latest view of the global rows, with no block above n, for a key on which the deliveries agree. It has
   the row that the as-of query at n reads from the chain's own table exactly when the earlier log, before the
   trigger, had not written that row; and then it reads it.
   */
  lemma LatestOfGlobal<K, V, P>(feed: Feed<K, V>, p: V -> P, earlier: seq<Delivery>, log: seq<Delivery>, k: K, n: nat)
    requires AgreeOn(feed, p, earlier + log, k) && NothingAbove(earlier + log, n)
    ensures var t, t0, g := Replay(feed, earlier + log), Replay(feed, earlier), GlobalSince(feed, earlier, log);
            && (NewestIn(p, t, g, k) <==> forall m: nat :: IsNewest(t, k, m) ==> (k, m) !in t0)
            && (NewestIn(p, t, g, k) ==> SameBy(p, Latest(g, k), AsOf(t, k, n)))
  {
    var t, t0, g := Replay(feed, earlier + log), Replay(feed, earlier), GlobalSince(feed, earlier, log);
    forall h: nat
      ensures (k, h) in g <==> (k, h) in t && (k, h) !in t0
      ensures (k, h) in g && (k, h) in t ==> p(g[(k, h)]) == p(t[(k, h)])
      ensures (k, h) in t ==> h <= n
    {
      GlobalSinceRow(feed, p, earlier, log, k, h);
      ReplayRow(feed, earlier + log, k, h);
    }
    LatestIsAsOf(t, k, n);
    if NewestIn(p, t, g, k) {
      NewestReads(p, t, g, k);
    }
  }

  // ---------------------------------------------------------------- what the converters write

  lemma DistinctAgree<K, V>(batch: seq<(K, V)>, x: (K, V), y: (K, V))
    requires DistinctKeys(batch) && x in batch && y in batch && x.0 == y.0
    ensures x == y
  {
  }

  lemma EmittedAgree<K, V>(cur: seq<(K, V)>, prev: map<K, V>, before: map<K, V>, forced: set<K>, same: (V, V) -> bool, k: K)
    requires DistinctKeys(cur)
    ensures BatchesAgree(Whole(), k, Emit(cur, prev, forced, same), Emit(cur, before, forced, same))
  {
    forall x, y | x in Emit(cur, prev, forced, same) && y in Emit(cur, before, forced, same) && x.0 == y.0 == k ensures x.1 == y.1 {
      EmitFrom(cur, prev, forced, same, x);
      EmitFrom(cur, before, forced, same, y);
      DistinctAgree(cur, x, y);
    }
  }

  lemma SnapshotAgreesOn<K, V>(entries: nat -> seq<(K, V)>, forced: nat -> set<K>, same: (V, V) -> bool, log: seq<Delivery>, k: K)
    requires DistinctHistory(entries)
    ensures AgreeOn(SnapshotFeed(entries, forced, same), Whole(), log, k)
  {
    var feed := SnapshotFeed(entries, forced, same);
    forall c: Delivery, d: Delivery | c.height == d.height ensures BatchesAgree(Whole(), k, feed(c), feed(d)) {
      EmittedAgree(entries(d.height), PreviousState(entries, c), PreviousState(entries, d), forced(d.height), same, k);
    }
  }

  lemma SameFeedAgreesOn<K, V, P>(feed: Feed<K, V>, other: Feed<K, V>, p: V -> P, log: seq<Delivery>, k: K)
    requires forall d :: feed(d) == other(d)
    requires AgreeOn(other, p, log, k)
    ensures AgreeOn(feed, p, log, k)
  {
  }

  /** What the rows keep of a subset of their columns agrees exactly when the batches of those columns agree. */
  lemma ProjectedAgree<K, V, W>(g: V -> W, k: K, a: seq<(K, V)>, b: seq<(K, V)>)
    ensures BatchesAgree(Whole(), k, Project(g, a), Project(g, b)) <==> BatchesAgree(g, k, a, b)
  {
    if BatchesAgree(Whole(), k, Project(g, a), Project(g, b)) {
      forall x, y | x in a && y in b && x.0 == y.0 == k ensures g(x.1) == g(y.1) {
        var i :| 0 <= i < |a| && a[i] == x;
        var j :| 0 <= j < |b| && b[j] == y;
        assert Project(g, a)[i] in Project(g, a) && Project(g, b)[j] in Project(g, b);
        assert Whole<W>()(Project(g, a)[i].1) == Whole<W>()(Project(g, b)[j].1);
      }
    }
    if BatchesAgree(g, k, a, b) {
      forall x, y | x in Project(g, a) && y in Project(g, b) && x.0 == y.0 == k ensures x.1 == y.1 {
        var i :| 0 <= i < |a| && Project(g, a)[i] == x;
        var j :| 0 <= j < |b| && Project(g, b)[j] == y;
        assert a[i] in a && b[j] in b;
      }
    }
  }

  lemma ProjectAgreesOn<K, V, W>(full: Feed<K, V>, part: Feed<K, W>, g: V -> W, log: seq<Delivery>, k: K)
    requires forall d :: part(d) == Project(g, full(d))
    ensures AgreeOn(part, Whole(), log, k) <==> AgreeOn(full, g, log, k)
  {
    forall c, d | c in log && d in log
      ensures BatchesAgree(Whole(), k, part(c), part(d)) <==> BatchesAgree(g, k, full(c), full(d))
    {
      ProjectedAgree(g, k, full(c), full(d));
    }
  }

  /** Whoever agrees on whole rows agrees on any of their columns. */
  lemma WholeAgreesOn<K, V, P>(feed: Feed<K, V>, p: V -> P, log: seq<Delivery>, k: K)
    requires AgreeOn(feed, Whole(), log, k)
    ensures AgreeOn(feed, p, log, k)
  {
    forall c, d | c in log && d in log && c.height == d.height ensures BatchesAgree(p, k, feed(c), feed(d)) {
      assert BatchesAgree(Whole(), k, feed(c), feed(d));
      assert forall x, y :: x in feed(c) && y in feed(d) && x.0 == y.0 == k ==> Whole<V>()(x.1) == Whole<V>()(y.1);
    }
  }
}
