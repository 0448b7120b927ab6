/**
 The snapshot-on-change store, for any kind of entity: what a block writes, what a log of
 committed blocks leaves in a table, and what a reader gets back.
 */
module ChangeDetection {
  import opened Tables

  /** A block as it reaches the indexer: with or without the state of the height before it. */
  datatype Delivery = Delivery(height: nat, withPrevious: bool) {
    predicate HasPrevious() { withPrevious && height > 0 }
  }

  /** The upserts one table receives for each delivery. */
  type Feed<!K, V> = Delivery -> seq<(K, V)>

  /** The table after committing the deliveries of a log one transaction after the other. */
  ghost function Replay<K, V>(feed: Feed<K, V>, log: seq<Delivery>): Table<K, V> {
    if log == [] then map[]
    else
      var d := log[|log| - 1];
      Upsert(Replay(feed, log[..|log| - 1]), d.height, feed(d))
  }

  lemma ReplaySnoc<K, V>(feed: Feed<K, V>, log: seq<Delivery>, d: Delivery)
    ensures Replay(feed, log + [d]) == Upsert(Replay(feed, log), d.height, feed(d))
  {
    assert (log + [d])[..|log|] == log;
  }

  lemma {:induction false} SameFeedSameTable<K, V>(feed: Feed<K, V>, other: Feed<K, V>, log: seq<Delivery>)
    requires forall d :: feed(d) == other(d)
    ensures Replay(feed, log) == Replay(other, log)
  {
    if log != [] {
      SameFeedSameTable(feed, other, log[..|log| - 1]);
    }
  }

  /** Two deliveries of one height in the log never write different values for one key. */
  ghost predicate Agree<K(!new), V>(feed: Feed<K, V>, log: seq<Delivery>) {
    forall c, d, k :: c in log && d in log && c.height == d.height && k in Collect(feed(c)) && k in Collect(feed(d)) ==>
                      Collect(feed(c))[k] == Collect(feed(d))[k]
  }

  lemma SameFeedAgrees<K(!new), V>(feed: Feed<K, V>, other: Feed<K, V>, log: seq<Delivery>)
    requires forall d :: feed(d) == other(d)
    ensures Agree(feed, log) <==> Agree(other, log)
  {
  }

  /** No height is delivered in two ways. */
  ghost predicate Uniform(log: seq<Delivery>) {
    forall c, d :: c in log && d in log && c.height == d.height ==> c == d
  }

  lemma UniformAgrees<K(!new), V>(feed: Feed<K, V>, log: seq<Delivery>)
    requires Uniform(log)
    ensures Agree(feed, log)
  {
  }

  ghost predicate Writes<K, V>(feed: Feed<K, V>, d: Delivery, k: K, h: nat) {
    d.height == h && k in Collect(feed(d))
  }

  /** A row is there exactly when some committed delivery writes it, and holds what one of them wrote. */
  lemma {:induction false} ReplayRow<K, V>(feed: Feed<K, V>, log: seq<Delivery>, k: K, h: nat)
    ensures (k, h) in Replay(feed, log) <==> exists d :: d in log && Writes(feed, d, k, h)
    ensures (k, h) in Replay(feed, log) ==>
            exists d :: d in log && Writes(feed, d, k, h) && Replay(feed, log)[(k, h)] == Collect(feed(d))[k]
  {
    if log != [] {
      var n := |log| - 1;
      ReplayRow(feed, log[..n], k, h);
      UpsertRow(Replay(feed, log[..n]), log[n].height, feed(log[n]), k, h);
      assert forall d :: d in log <==> d in log[..n] || d == log[n];
      if Writes(feed, log[n], k, h) {
        assert log[n] in log && Replay(feed, log)[(k, h)] == Collect(feed(log[n]))[k];
      }
    }
  }

  /** A replayed table is the union of what its deliveries write, whatever their order and repetitions. */
  lemma ReplayIsUnion<K(!new), V>(feed: Feed<K, V>, log: seq<Delivery>, k: K, h: nat)
    requires Agree(feed, log)
    ensures (k, h) in Replay(feed, log) <==> exists d :: d in log && Writes(feed, d, k, h)
    ensures forall d :: d in log && Writes(feed, d, k, h) ==> Replay(feed, log)[(k, h)] == Collect(feed(d))[k]
  {
    ReplayRow(feed, log, k, h);
  }

  /** Parallel, unordered and repeated indexing: only the set of committed deliveries matters. */
  lemma OrderIndependence<K(!new), V>(feed: Feed<K, V>, log: seq<Delivery>, other: seq<Delivery>)
    requires Agree(feed, log) && SameDeliveries(log, other)
    ensures Replay(feed, log) == Replay(feed, other)
  {
    var t, u := Replay(feed, log), Replay(feed, other);
    forall k, h: nat
      ensures (k, h) in t <==> (k, h) in u
      ensures (k, h) in t && (k, h) in u ==> t[(k, h)] == u[(k, h)]
    {
      ReplayIsUnion(feed, log, k, h);
      ReplayIsUnion(feed, other, k, h);
    }
    assert forall r :: r in t ==> (r.0, r.1) in u && u[(r.0, r.1)] == t[r];
    assert forall r :: r in u ==> (r.0, r.1) in t;
  }

  lemma LastWins<K, V>(feed: Feed<K, V>, log: seq<Delivery>, d: Delivery, k: K)
    requires k in Collect(feed(d))
    ensures (k, d.height) in Replay(feed, log + [d]) && Replay(feed, log + [d])[(k, d.height)] == Collect(feed(d))[k]
  {
    ReplaySnoc(feed, log, d);
    UpsertRow(Replay(feed, log), d.height, feed(d), k, d.height);
  }

  ghost predicate SameDeliveries(log: seq<Delivery>, other: seq<Delivery>) {
    forall d :: d in log <==> d in other
  }

  lemma RedeliveryIsTheSame(log: seq<Delivery>, d: Delivery)
    requires d in log
    ensures SameDeliveries(log, log + [d])
  {
  }

  /** Exactly when: order and repetitions do not matter if and only if the deliveries of a height agree on what they write. */
  lemma OrderIndependentExactly<K(!new), V>(feed: Feed<K, V>, log: seq<Delivery>)
    ensures Agree(feed, log) <==> forall other :: SameDeliveries(log, other) ==> Replay(feed, other) == Replay(feed, log)
  {
    if Agree(feed, log) {
      forall other | SameDeliveries(log, other) ensures Replay(feed, other) == Replay(feed, log) {
        OrderIndependence(feed, log, other);
      }
    } else {
      var c, d, k :| c in log && d in log && c.height == d.height && k in Collect(feed(c)) && k in Collect(feed(d)) &&
                     Collect(feed(c))[k] != Collect(feed(d))[k];
      LastWins(feed, log, c, k);
      LastWins(feed, log, d, k);
      RedeliveryIsTheSame(log, c);
      RedeliveryIsTheSame(log, d);
      assert Replay(feed, log + [c]) != Replay(feed, log + [d]);
    }
  }

  ghost predicate Indexed(log: seq<Delivery>, h: nat) {
    exists d :: d in log && d.height == h
  }

  ghost predicate IndexedThrough(log: seq<Delivery>, h: nat) {
    forall i :: 1 <= i <= h ==> Indexed(log, i)
  }

  // ---------------------------------------------------------------- what a block writes

  predicate Changed<K(==), V>(x: (K, V), prev: map<K, V>, forced: set<K>, same: (V, V) -> bool) {
    x.0 in forced || x.0 !in prev || !same(x.1, prev[x.0])
  }

  /** The entities of the current state that are new, changed, or written whatever their state. */
  function Emit<K(==), V>(cur: seq<(K, V)>, prev: map<K, V>, forced: set<K>, same: (V, V) -> bool): seq<(K, V)> {
    if cur == [] then []
    else
      var x := cur[|cur| - 1];
      Emit(cur[..|cur| - 1], prev, forced, same) + if Changed(x, prev, forced, same) then [x] else []
  }

  lemma EmitSnoc<K, V>(cur: seq<(K, V)>, x: (K, V), prev: map<K, V>, forced: set<K>, same: (V, V) -> bool)
    ensures Emit(cur + [x], prev, forced, same) ==
            Emit(cur, prev, forced, same) + if Changed(x, prev, forced, same) then [x] else []
  {
    assert (cur + [x])[..|cur|] == cur;
  }

  lemma {:induction false} EmitCollects<K, V>(cur: seq<(K, V)>, prev: map<K, V>, forced: set<K>, same: (V, V) -> bool, k: K)
    requires DistinctKeys(cur)
    ensures k in Collect(Emit(cur, prev, forced, same)) <==>
            k in Collect(cur) && Changed((k, Collect(cur)[k]), prev, forced, same)
    ensures k in Collect(Emit(cur, prev, forced, same)) ==>
            Collect(Emit(cur, prev, forced, same))[k] == Collect(cur)[k]
  {
    if cur != [] {
      var n := |cur| - 1;
      var x, rest := cur[n], cur[..n];
      EmitCollects(rest, prev, forced, same, k);
      CollectKeys(rest, k);
      assert k in Collect(rest) ==> k != x.0;
      if Changed(x, prev, forced, same) {
        CollectSnoc(Emit(rest, prev, forced, same), x);
      } else {
        assert Emit(cur, prev, forced, same) == Emit(rest, prev, forced, same);
      }
    }
  }

  /** Whatever is emitted is an entity of the current state. */
  lemma {:induction false} EmitFrom<K, V>(cur: seq<(K, V)>, prev: map<K, V>, forced: set<K>, same: (V, V) -> bool, x: (K, V))
    requires x in Emit(cur, prev, forced, same)
    ensures x in cur
  {
    if cur[|cur| - 1] != x {
      EmitFrom(cur[..|cur| - 1], prev, forced, same, x);
    }
  }

  lemma EmitUnique<K, V>(cur: seq<(K, V)>, prev: map<K, V>, forced: set<K>, same: (V, V) -> bool, x: (K, V))
    requires DistinctKeys(cur) && x in Emit(cur, prev, forced, same)
    ensures x.0 in Collect(Emit(cur, prev, forced, same)) && Collect(Emit(cur, prev, forced, same))[x.0] == x.1
  {
    EmitFrom(cur, prev, forced, same, x);
    var i :| 0 <= i < |cur| && cur[i] == x;
    CollectDistinct(cur, i);
    var e := Emit(cur, prev, forced, same);
    var j :| 0 <= j < |e| && e[j] == x;
    CollectKeys(e, x.0);
    EmitCollects(cur, prev, forced, same, x.0);
  }

  /** The state a block is compared with: nothing at all when it came without one. */
  ghost function PreviousState<K, V>(entries: nat -> seq<(K, V)>, d: Delivery): map<K, V> {
    if d.HasPrevious() then Collect(entries(d.height - 1)) else map[]
  }

  ghost function SnapshotFeed<K, V>(entries: nat -> seq<(K, V)>, forced: nat -> set<K>, same: (V, V) -> bool): Feed<K, V> {
    (d: Delivery) => Emit(entries(d.height), PreviousState(entries, d), forced(d.height), same)
  }

  ghost predicate DistinctHistory<K, V>(entries: nat -> seq<(K, V)>) {
    forall i: nat :: DistinctKeys(entries(i))
  }

  lemma SnapshotFeedAgrees<K(!new), V>(entries: nat -> seq<(K, V)>, forced: nat -> set<K>, same: (V, V) -> bool, log: seq<Delivery>)
    requires DistinctHistory(entries)
    ensures Agree(SnapshotFeed(entries, forced, same), log)
  {
    var feed := SnapshotFeed(entries, forced, same);
    forall c: Delivery, d: Delivery, k | c in log && d in log && c.height == d.height && k in Collect(feed(c)) && k in Collect(feed(d))
      ensures Collect(feed(c))[k] == Collect(feed(d))[k]
    {
      EmitCollects(entries(c.height), PreviousState(entries, c), forced(c.height), same, k);
      EmitCollects(entries(d.height), PreviousState(entries, d), forced(d.height), same, k);
    }
  }

  // ---------------------------------------------------------------- lists turned into keyed rows

  function Map<A, B>(f: A -> B, s: seq<A>): (r: seq<B>)
    ensures |r| == |s| && forall i :: 0 <= i < |s| ==> r[i] == f(s[i])
  {
    if s == [] then [] else Map(f, s[..|s| - 1]) + [f(s[|s| - 1])]
  }

  /** The step of a loop that turns a list into keyed rows. */
  lemma MapStep<A, K, V>(entry: A -> (K, V), s: seq<A>, i: nat)
    requires i < |s|
    ensures Map(entry, s[..i + 1]) == Map(entry, s[..i]) + [entry(s[i])]
    ensures Collect(Map(entry, s[..i + 1])) == Collect(Map(entry, s[..i]))[entry(s[i]).0 := entry(s[i]).1]
  {
    assert s[..i + 1][..i] == s[..i];
    CollectSnoc(Map(entry, s[..i]), entry(s[i]));
  }

  /** The step of a loop that emits the changed entries of a list. */
  lemma EmitStep<A, K, V>(entry: A -> (K, V), s: seq<A>, i: nat, prev: map<K, V>, same: (V, V) -> bool)
    requires i < |s|
    ensures Emit(Map(entry, s[..i + 1]), prev, {}, same) ==
            Emit(Map(entry, s[..i]), prev, {}, same) + if Changed(entry(s[i]), prev, {}, same) then [entry(s[i])] else []
  {
    MapStep(entry, s, i);
    EmitSnoc(Map(entry, s[..i]), entry(s[i]), prev, {}, same);
  }

  lemma MapDistinct<A, K, V>(entry: A -> (K, V), s: seq<A>)
    requires forall i, j :: 0 <= i < j < |s| ==> entry(s[i]).0 != entry(s[j]).0
    ensures DistinctKeys(Map(entry, s))
  {
  }

  /** Every row collected from a list comes from one of its members. */
  lemma MapOrigin<A, K, V>(entry: A -> (K, V), s: seq<A>, k: K) returns (a: A)
    requires k in Collect(Map(entry, s))
    ensures a in s && entry(a) == (k, Collect(Map(entry, s))[k])
  {
    CollectKeys(Map(entry, s), k);
    var i :| 0 <= i < |s| && Map(entry, s)[i] == (k, Collect(Map(entry, s))[k]);
    a := s[i];
  }

  /** A member of a list without repeated keys is what the list says about its key. */
  lemma MapMember<A, K, V>(entry: A -> (K, V), s: seq<A>, a: A)
    requires DistinctKeys(Map(entry, s)) && a in s
    ensures entry(a).0 in Collect(Map(entry, s)) && Collect(Map(entry, s))[entry(a).0] == entry(a).1
  {
    var i :| 0 <= i < |s| && s[i] == a;
    CollectDistinct(Map(entry, s), i);
  }

  /** A lookup table of entities holds, key by key, the entity whose row is in c. */
  ghost predicate Mirrors<K, E, V>(m: map<K, E>, c: map<K, V>, row: E -> V) {
    m.Keys == c.Keys && forall k :: k in m ==> c[k] == row(m[k])
  }

  /** The step of a loop that fills a lookup table. */
  lemma IndexStep<A, K, V>(m: map<K, A>, entry: A -> (K, V), row: A -> V, s: seq<A>, i: nat)
    requires i < |s| && Mirrors(m, Collect(Map(entry, s[..i])), row) && entry(s[i]).1 == row(s[i])
    ensures Mirrors(m[entry(s[i]).0 := s[i]], Collect(Map(entry, s[..i + 1])), row)
  {
    MapStep(entry, s, i);
  }

  /** Nothing forces a row of this kind of entity. */
  function Never<K>(): nat -> set<K> {
    (h: nat) => {}
  }

  // ---------------------------------------------------------------- column subsets

  /** The values of a batch seen through a subset of its columns. */
  function Project<K, V, W>(g: V -> W, batch: seq<(K, V)>): (r: seq<(K, W)>)
    ensures |r| == |batch| && forall i :: 0 <= i < |r| ==> r[i] == (batch[i].0, g(batch[i].1))
  {
    Map((x: (K, V)) => (x.0, g(x.1)), batch)
  }

  lemma {:induction false} ProjectCollects<K, V, W>(g: V -> W, batch: seq<(K, V)>, k: K)
    ensures k in Collect(Project(g, batch)) <==> k in Collect(batch)
    ensures k in Collect(batch) ==> Collect(Project(g, batch))[k] == g(Collect(batch)[k])
  {
    if batch != [] {
      var n := |batch| - 1;
      ProjectCollects(g, batch[..n], k);
      assert Project(g, batch) == Project(g, batch[..n]) + [(batch[n].0, g(batch[n].1))];
      CollectSnoc(Project(g, batch[..n]), (batch[n].0, g(batch[n].1)));
    }
  }

  /** A table and its projection hold the same keys, and projected values. */
  lemma {:induction false} ProjectReplay<K, V, W>(full: Feed<K, V>, part: Feed<K, W>, g: V -> W, log: seq<Delivery>, k: K, h: nat)
    requires forall d :: part(d) == Project(g, full(d))
    ensures (k, h) in Replay(part, log) <==> (k, h) in Replay(full, log)
    ensures (k, h) in Replay(full, log) ==> Replay(part, log)[(k, h)] == g(Replay(full, log)[(k, h)])
  {
    if log != [] {
      var n := |log| - 1;
      ProjectReplay(full, part, g, log[..n], k, h);
      UpsertRow(Replay(full, log[..n]), log[n].height, full(log[n]), k, h);
      UpsertRow(Replay(part, log[..n]), log[n].height, part(log[n]), k, h);
      ProjectCollects(g, full(log[n]), k);
    }
  }

  function ProjectTable<K(==), V, W>(g: V -> W, t: Table<K, V>): Table<K, W> {
    map r | r in t :: g(t[r])
  }

  /** A table seen through a subset of its columns is the table of the feed seen through them. */
  lemma ProjectTableIsReplay<K(!new), V, W>(full: Feed<K, V>, part: Feed<K, W>, g: V -> W, log: seq<Delivery>)
    requires forall d :: part(d) == Project(g, full(d))
    ensures ProjectTable(g, Replay(full, log)) == Replay(part, log)
  {
    var a, b := ProjectTable(g, Replay(full, log)), Replay(part, log);
    forall k, h: nat
      ensures (k, h) in a <==> (k, h) in b
      ensures (k, h) in a && (k, h) in b ==> a[(k, h)] == b[(k, h)]
    {
      ProjectReplay(full, part, g, log, k, h);
    }
    assert forall r :: r in a ==> (r.0, r.1) in b && b[(r.0, r.1)] == a[r];
    assert forall r :: r in b ==> (r.0, r.1) in a;
  }

  /** Seen through a subset of their columns, feeds that agree still agree. */
  lemma ProjectAgrees<K(!new), V, W>(full: Feed<K, V>, part: Feed<K, W>, g: V -> W, log: seq<Delivery>)
    requires forall d :: part(d) == Project(g, full(d))
    requires Agree(full, log)
    ensures Agree(part, log)
  {
    forall c, d, k | c in log && d in log && c.height == d.height && k in Collect(part(c)) && k in Collect(part(d))
      ensures Collect(part(c))[k] == Collect(part(d))[k]
    {
      ProjectCollects(g, full(c), k);
      ProjectCollects(g, full(d), k);
    }
  }

  lemma {:induction false} ProjectAsOf<K, V, W>(full: Feed<K, V>, part: Feed<K, W>, g: V -> W, log: seq<Delivery>, k: K, h: nat)
    requires forall d :: part(d) == Project(g, full(d))
    ensures var a, b := AsOf(Replay(full, log), k, h), AsOf(Replay(part, log), k, h);
            (a.Some? <==> b.Some?) && (a.Some? ==> b.value == g(a.value))
    decreases h
  {
    ProjectReplay(full, part, g, log, k, h);
    if h > 0 {
      ProjectAsOf(full, part, g, log, k, h - 1);
    }
  }

  // ---------------------------------------------------------------- columns computed from the previous state

  function Lookup<K, S>(m: map<K, S>, k: K): Option<S> {
    if k in m then Some(m[k]) else None
  }

  /** Rows whose extra columns compare the state with the one before it. */
  function Decorate<K, S, R>(row: (S, Option<S>) -> R, batch: seq<(K, S)>, prev: map<K, S>): (r: seq<(K, R)>)
    ensures |r| == |batch| &&
            forall i :: 0 <= i < |r| ==> r[i] == (batch[i].0, row(batch[i].1, Lookup(prev, batch[i].0)))
  {
    Map((x: (K, S)) => (x.0, row(x.1, Lookup(prev, x.0))), batch)
  }

  lemma DecorateSnoc<K, S, R>(row: (S, Option<S>) -> R, batch: seq<(K, S)>, x: (K, S), prev: map<K, S>)
    ensures Decorate(row, batch + [x], prev) == Decorate(row, batch, prev) + [(x.0, row(x.1, Lookup(prev, x.0)))]
  {
  }

  lemma ProjectDecorated<K, S, R>(row: (S, Option<S>) -> R, state: R -> S, batch: seq<(K, S)>, prev: map<K, S>)
    requires forall s, o :: state(row(s, o)) == s
    ensures Project(state, Decorate(row, batch, prev)) == batch
  {
  }

  lemma {:induction false} DecorateCollects<K, S, R>(row: (S, Option<S>) -> R, batch: seq<(K, S)>, prev: map<K, S>, k: K)
    ensures k in Collect(Decorate(row, batch, prev)) <==> k in Collect(batch)
    ensures k in Collect(batch) ==> Collect(Decorate(row, batch, prev))[k] == row(Collect(batch)[k], Lookup(prev, k))
  {
    if batch != [] {
      var n := |batch| - 1;
      DecorateCollects(row, batch[..n], prev, k);
      var x := (batch[n].0, row(batch[n].1, Lookup(prev, batch[n].0)));
      assert Decorate(row, batch, prev) == Decorate(row, batch[..n], prev) + [x];
      CollectSnoc(Decorate(row, batch[..n], prev), x);
    }
  }

  // ---------------------------------------------------------------- keys stored in narrower columns

  /** The batch as it is stored: keyed by the row's own key column. */
  function Rekey<K, V>(column: V -> K, batch: seq<(K, V)>): (r: seq<(K, V)>)
    ensures |r| == |batch| && forall i :: 0 <= i < |r| ==> r[i] == (column(batch[i].1), batch[i].1)
  {
    Map((x: (K, V)) => (column(x.1), x.1), batch)
  }

  /** Keys that fit their column are stored as they are. */
  lemma {:induction false} RekeyEmit<K, V>(column: V -> K, cur: seq<(K, V)>, prev: map<K, V>, forced: set<K>, same: (V, V) -> bool)
    requires forall x :: x in cur ==> column(x.1) == x.0
    ensures Rekey(column, Emit(cur, prev, forced, same)) == Emit(cur, prev, forced, same)
  {
    if cur != [] {
      var rest := cur[..|cur| - 1];
      assert forall x :: x in rest ==> x in cur;
      RekeyEmit(column, rest, prev, forced, same);
      var e := Emit(rest, prev, forced, same);
      assert forall i :: 0 <= i < |e| ==> Rekey(column, e)[i] == e[i];
    }
  }

  // ---------------------------------------------------------------- what a reader gets back

  /** At the height of d, the key was there before, looks the same, and d carried the state before. */
  ghost predicate Quiet<K, V>(entries: nat -> seq<(K, V)>, forced: nat -> set<K>, same: (V, V) -> bool, d: Delivery, k: K) {
    && d.HasPrevious()
    && k !in forced(d.height)
    && k in Collect(entries(d.height)) && k in Collect(entries(d.height - 1))
    && same(Collect(entries(d.height))[k], Collect(entries(d.height - 1))[k])
  }

  /** No committed block up to h had a reason to write the key: it stands unchanged since before height 1. */
  ghost predicate Dormant<K, V>(entries: nat -> seq<(K, V)>, forced: nat -> set<K>, same: (V, V) -> bool,
                                log: seq<Delivery>, k: K, h: nat)
  {
    forall d :: d in log && d.height <= h ==> Quiet(entries, forced, same, d, k)
  }

  /** The comparison of a converter notices every change of the columns p keeps. */
  ghost predicate Notices<K, V, P>(entries: nat -> seq<(K, V)>, same: (V, V) -> bool, p: V -> P, k: K) {
    forall i: nat | i > 0 && k in Collect(entries(i)) && k in Collect(entries(i - 1)) ::
      same(Collect(entries(i))[k], Collect(entries(i - 1))[k]) ==>
      p(Collect(entries(i))[k]) == p(Collect(entries(i - 1))[k])
  }

  lemma SnapshotRow<K(!new), V>(entries: nat -> seq<(K, V)>, forced: nat -> set<K>, same: (V, V) -> bool,
                                log: seq<Delivery>, k: K, h: nat)
    requires DistinctHistory(entries)
    requires k in Collect(entries(h))
    ensures var t := Replay(SnapshotFeed(entries, forced, same), log);
            && ((k, h) !in t <==> forall d :: d in log && d.height == h ==> Quiet(entries, forced, same, d, k))
            && ((k, h) in t ==> t[(k, h)] == Collect(entries(h))[k])
  {
    var feed := SnapshotFeed(entries, forced, same);
    SnapshotFeedAgrees(entries, forced, same, log);
    ReplayIsUnion(feed, log, k, h);
    forall d: Delivery | d.height == h
      ensures Writes(feed, d, k, h) <==> !Quiet(entries, forced, same, d, k)
      ensures Writes(feed, d, k, h) ==> Collect(feed(d))[k] == Collect(entries(h))[k]
    {
      EmitCollects(entries(h), PreviousState(entries, d), forced(h), same, k);
    }
  }

  /** A committed block of height m came without the state before it, or with it at a height where the entity had changed. */
  ghost predicate WrittenAt(log: seq<Delivery>, m: nat, changed: bool) {
    exists d :: d in log && d.height == m && (d.withPrevious && m > 0 ==> changed)
  }

  /** The list before holds an entity under the key of a, and it looks the same. */
  ghost predicate Stays<A, K, V>(entry: A -> (K, V), was: seq<A>, same: (V, V) -> bool, a: A) {
    exists p :: p in was && entry(p).0 == entry(a).0 && same(entry(a).1, entry(p).1)
  }

  lemma QuietIsStaying<A, K, V>(entries: nat -> seq<(K, V)>, entry: A -> (K, V), now: seq<A>, was: seq<A>, forced: nat -> set<K>,
                                same: (V, V) -> bool, d: Delivery, a: A)
    requires DistinctHistory(entries) && a in now && entries(d.height) == Map(entry, now)
    requires d.height > 0 ==> entries(d.height - 1) == Map(entry, was)
    ensures Quiet(entries, forced, same, d, entry(a).0) <==>
            d.HasPrevious() && entry(a).0 !in forced(d.height) && Stays(entry, was, same, a)
  {
    var k := entry(a).0;
    MapMember(entry, now, a);
    if d.HasPrevious() {
      forall p | p in was ensures entry(p).0 in Collect(Map(entry, was)) && Collect(Map(entry, was))[entry(p).0] == entry(p).1 {
        MapMember(entry, was, p);
      }
      if k in Collect(Map(entry, was)) {
        var p := MapOrigin(entry, was, k);
      }
    }
  }

  lemma WrittenUnlessQuiet<K(!new), V>(entries: nat -> seq<(K, V)>, forced: nat -> set<K>, same: (V, V) -> bool, log: seq<Delivery>,
                                       k: K, m: nat, changed: bool)
    requires DistinctHistory(entries) && k in Collect(entries(m))
    requires forall d: Delivery :: d.height == m ==> (Quiet(entries, forced, same, d, k) <==> d.withPrevious && m > 0 && !changed)
    ensures var t := Replay(SnapshotFeed(entries, forced, same), log);
            && ((k, m) in t <==> WrittenAt(log, m, changed))
            && ((k, m) in t ==> t[(k, m)] == Collect(entries(m))[k])
  {
    SnapshotRow(entries, forced, same, log, k, m);
  }

  /**
   When a block leaves a row: an entity of height m has one exactly when some committed block of m came without
   the state before it, or the entity is forced, new or different; and the row holds the entity as it is at m.
   */
  lemma RowAt<A, K(!new), V>(entries: nat -> seq<(K, V)>, entry: A -> (K, V), now: seq<A>, was: seq<A>, forced: nat -> set<K>,
                             same: (V, V) -> bool, log: seq<Delivery>, m: nat, a: A)
    requires DistinctHistory(entries) && a in now && entries(m) == Map(entry, now)
    requires m > 0 ==> entries(m - 1) == Map(entry, was)
    ensures var t, k := Replay(SnapshotFeed(entries, forced, same), log), entry(a).0;
            && ((k, m) in t <==> WrittenAt(log, m, m == 0 || k in forced(m) || !Stays(entry, was, same, a)))
            && ((k, m) in t ==> t[(k, m)] == entry(a).1)
  {
    var k := entry(a).0;
    MapMember(entry, now, a);
    forall d: Delivery | d.height == m
      ensures Quiet(entries, forced, same, d, k) <==> d.withPrevious && m > 0 && k !in forced(m) && Stays(entry, was, same, a)
    {
      QuietIsStaying(entries, entry, now, was, forced, same, d, a);
    }
    WrittenUnlessQuiet(entries, forced, same, log, k, m, m == 0 || k in forced(m) || !Stays(entry, was, same, a));
  }

  /**
   As-of reconstruction. With heights 1..h committed, in any order, any number of times, with or
   without the previous state, a key alive at h either reads exactly as it is at h, or has no row
   at all; the latter exactly when it has stood unchanged since before the first committed block.
   */
  lemma {:induction false} SnapshotAsOf<K(!new), V, P>(entries: nat -> seq<(K, V)>, forced: nat -> set<K>, same: (V, V) -> bool,
                                                       p: V -> P, log: seq<Delivery>, k: K, h: nat)
    requires DistinctHistory(entries) && IndexedThrough(log, h)
    requires k in Collect(entries(h)) && Notices(entries, same, p, k)
    ensures var row := AsOf(Replay(SnapshotFeed(entries, forced, same), log), k, h);
            && (row.None? <==> Dormant(entries, forced, same, log, k, h))
            && (row.Some? ==> p(row.value) == p(Collect(entries(h))[k]))
    decreases h
  {
    var t := Replay(SnapshotFeed(entries, forced, same), log);
    SnapshotRow(entries, forced, same, log, k, h);
    if (k, h) !in t && h > 0 {
      assert Indexed(log, h);
      var d :| d in log && d.height == h;
      assert Quiet(entries, forced, same, d, k);
      SnapshotAsOf(entries, forced, same, p, log, k, h - 1);
    }
  }

  /** A key absent before the first block is never dormant. */
  lemma {:induction false} BornLater<K, V>(entries: nat -> seq<(K, V)>, forced: nat -> set<K>, same: (V, V) -> bool,
                                           log: seq<Delivery>, k: K, h: nat)
    requires IndexedThrough(log, h) && h > 0
    requires k !in Collect(entries(0))
    ensures !Dormant(entries, forced, same, log, k, h)
  {
    assert Indexed(log, 1);
    var d :| d in log && d.height == 1;
    assert !Quiet(entries, forced, same, d, k);
  }
}
