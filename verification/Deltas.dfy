/** Delta columns: fixed-width differences with the height before, and what their sums recover. */
module Deltas {
  import opened Tables
  import opened ChangeDetection
  import opened Chain

  /** Reinterpretation of an unsigned number of the given modulus as a signed one. */
  function Signed(x: int, modulus: int): int {
    if 2 * x < modulus then x else x - modulus
  }

  /** Signed subtraction that wraps around as the fixed-width type does. */
  function WrapSub(x: int, y: int, modulus: int): int {
    var d := x - y;
    if 2 * d >= modulus then d - modulus else if 2 * d < -modulus then d + modulus else d
  }

  function Delta(cur: nat, prev: nat, modulus: int): int {
    WrapSub(Signed(cur, modulus), Signed(prev, modulus), modulus)
  }

  ghost predicate Congruent(a: int, b: int, modulus: int) {
    exists q: int :: a == b + q * modulus
  }

  /** The difference leads from one number to the other modulo the width, and is the one such number that a signed column holds. */
  ghost predicate Leads(from: nat, to: nat, delta: int, modulus: int) {
    Congruent(from + delta, to, modulus) && -modulus <= 2 * delta < modulus
  }

  lemma CongruentBy(a: int, b: int, q: int, modulus: int)
    requires a == b + q * modulus
    ensures Congruent(a, b, modulus)
  {
  }

  lemma CongruentAdd(a: int, b: int, c: int, d: int, modulus: int)
    requires Congruent(a, b, modulus) && Congruent(b + c, d, modulus)
    ensures Congruent(a + c, d, modulus)
  {
    var q :| a == b + q * modulus;
    var r :| b + c == d + r * modulus;
    assert q * modulus + r * modulus == (q + r) * modulus;
    CongruentBy(a + c, d, q + r, modulus);
  }

  /** A delta leads from the old value to the new one, even when both conversions wrap. */
  lemma DeltaLeads(cur: nat, prev: nat, modulus: int)
    requires cur < modulus && prev < modulus
    ensures Leads(prev, cur, Delta(cur, prev, modulus), modulus)
    ensures Delta(cur, prev, modulus) == 0 <==> cur == prev
  {
    var d := prev + Delta(cur, prev, modulus) - cur;
    assert -2 * modulus < d < 2 * modulus;
    assert d == modulus || d == 0 || d == -modulus;
    assert 1 * modulus == modulus && (-1) * modulus == -modulus && 0 * modulus == 0;
    CongruentBy(prev + Delta(cur, prev, modulus), cur, if d == 0 then 0 else if d > 0 then 1 else -1, modulus);
  }

  /** The sum of a delta column over the rows of a key above c and not above h. */
  ghost function SumDeltas<K, R>(t: Table<K, R>, k: K, delta: R -> int, c: nat, h: nat): int {
    if h <= c then 0
    else SumDeltas(t, k, delta, c, h - 1) + if (k, h) in t then delta(t[(k, h)]) else 0
  }

  /** Rows of snapshots decorated with differences. */
  ghost function DecoratedFeed<K, S, R>(entries: nat -> seq<(K, S)>, same: (S, S) -> bool, row: (S, Option<S>) -> R): Feed<K, R> {
    (d: Delivery) => Decorate(row, SnapshotFeed(entries, Never(), same)(d), PreviousState(entries, d))
  }

  lemma DecoratedRow<K(!new), S, R>(entries: nat -> seq<(K, S)>, same: (S, S) -> bool, row: (S, Option<S>) -> R,
                                    log: seq<Delivery>, k: K, h: nat)
    requires DistinctHistory(entries) && h > 0
    requires k in Collect(entries(h)) && k in Collect(entries(h - 1))
    requires Indexed(log, h) && forall d :: d in log && d.height == h ==> d.withPrevious
    ensures var t := Replay(DecoratedFeed(entries, same, row), log);
            var cur, prev := Collect(entries(h))[k], Collect(entries(h - 1))[k];
            && ((k, h) in t <==> !same(cur, prev))
            && ((k, h) in t ==> t[(k, h)] == row(cur, Some(prev)))
  {
    var plain, feed := SnapshotFeed(entries, Never(), same), DecoratedFeed(entries, same, row);
    ReplayRow(feed, log, k, h);
    forall d | d in log && d.height == h
      ensures Writes(feed, d, k, h) <==> !same(Collect(entries(h))[k], Collect(entries(h - 1))[k])
      ensures Writes(feed, d, k, h) ==> Collect(feed(d))[k] == row(Collect(entries(h))[k], Some(Collect(entries(h - 1))[k]))
    {
      EmitCollects(entries(h), PreviousState(entries, d), {}, same, k);
      DecorateCollects(row, plain(d), PreviousState(entries, d), k);
    }
  }

  // ---------------------------------------------------------------- heights delivered in two ways

  /** Where a height came both with and without the state before it, no entity that was there before changed at it. */
  ghost predicate DeltasSettled<K(!new), S>(entries: nat -> seq<(K, S)>, same: (S, S) -> bool, log: seq<Delivery>) {
    forall h: nat, k | h > 0 && Delivery(h, true) in log && Delivery(h, false) in log &&
                       k in Collect(entries(h)) && k in Collect(entries(h - 1)) ::
      same(Collect(entries(h))[k], Collect(entries(h - 1))[k])
  }

  lemma DecoratedValue<K, S, R>(entries: nat -> seq<(K, S)>, same: (S, S) -> bool, row: (S, Option<S>) -> R, d: Delivery, k: K)
    requires DistinctHistory(entries)
    ensures var written, now, was := Collect(DecoratedFeed(entries, same, row)(d)), Collect(entries(d.height)), PreviousState(entries, d);
            && (k in written <==> k in now && (k !in was || !same(now[k], was[k])))
            && (k in written ==> written[k] == row(now[k], Lookup(was, k)))
  {
    EmitCollects(entries(d.height), PreviousState(entries, d), {}, same, k);
    DecorateCollects(row, SnapshotFeed(entries, Never(), same)(d), PreviousState(entries, d), k);
  }

  lemma ChangeShows<S, R>(same: (S, S) -> bool, row: (S, Option<S>) -> R, cur: S, prev: S)
    requires forall s, p :: !same(s, p) ==> row(s, Some(p)) != row(s, None)
    ensures !same(cur, prev) ==> row(cur, Some(prev)) != row(cur, None)
  {
  }

  /** The deliveries of every height agree on the decorated rows exactly when none that came both ways saw a change. */
  lemma DecoratedAgreesExactly<K(!new), S, R>(entries: nat -> seq<(K, S)>, same: (S, S) -> bool, row: (S, Option<S>) -> R, log: seq<Delivery>)
    requires DistinctHistory(entries)
    requires forall s, p :: !same(s, p) ==> row(s, Some(p)) != row(s, None)
    ensures Agree(DecoratedFeed(entries, same, row), log) <==> DeltasSettled(entries, same, log)
  {
    var feed := DecoratedFeed(entries, same, row);
    if Agree(feed, log) {
      forall h: nat, k | h > 0 && Delivery(h, true) in log && Delivery(h, false) in log &&
                         k in Collect(entries(h)) && k in Collect(entries(h - 1))
        ensures same(Collect(entries(h))[k], Collect(entries(h - 1))[k])
      {
        var with, without := Delivery(h, true), Delivery(h, false);
        var cur, prev := Collect(entries(h))[k], Collect(entries(h - 1))[k];
        DecoratedValue(entries, same, row, with, k);
        DecoratedValue(entries, same, row, without, k);
        ChangeShows(same, row, cur, prev);
      }
    }
    if DeltasSettled(entries, same, log) {
      forall c, d, k | c in log && d in log && c.height == d.height && k in Collect(feed(c)) && k in Collect(feed(d))
        ensures Collect(feed(c))[k] == Collect(feed(d))[k]
      {
        DecoratedValue(entries, same, row, c, k);
        DecoratedValue(entries, same, row, d, k);
        if c.HasPrevious() != d.HasPrevious() {
          assert Delivery(c.height, true) in log && Delivery(c.height, false) in log;
        }
      }
    }
  }

  /** A row has nothing to compare with when it came without the state before or the entity is new; otherwise the entity before. */
  ghost predicate DecoratedAs<A, K, S, R>(entry: A -> (K, S), was: seq<A>, row: (S, Option<S>) -> R, log: seq<Delivery>, m: nat, a: A, r: R) {
    || (r == row(entry(a).1, None) && WrittenAt(log, m, forall p :: p in was ==> entry(p).0 != entry(a).0))
    || exists p :: p in was && entry(p).0 == entry(a).0 && m > 0 && Delivery(m, true) in log && r == row(entry(a).1, Some(entry(p).1))
  }

  lemma DecoratedBy<A, K, S, R>(entries: nat -> seq<(K, S)>, entry: A -> (K, S), now: seq<A>, was: seq<A>, same: (S, S) -> bool,
                                row: (S, Option<S>) -> R, log: seq<Delivery>, d: Delivery, a: A)
    requires DistinctHistory(entries) && a in now && entries(d.height) == Map(entry, now) && d in log
    requires d.height > 0 ==> entries(d.height - 1) == Map(entry, was)
    ensures var written, k := Collect(DecoratedFeed(entries, same, row)(d)), entry(a).0;
            && (k in written <==> !(d.HasPrevious() && Stays(entry, was, same, a)))
            && (k in written ==> DecoratedAs(entry, was, row, log, d.height, a, written[k]))
  {
    var k := entry(a).0;
    MapMember(entry, now, a);
    QuietIsStaying(entries, entry, now, was, Never(), same, d, a);
    DecoratedValue(entries, same, row, d, k);
    if d.HasPrevious() {
      CollectKeys(Map(entry, was), k);
      if k in Collect(Map(entry, was)) {
        var p := MapOrigin(entry, was, k);
        assert d == Delivery(d.height, true);
      } else {
        forall p | p in was ensures entry(p).0 != k {
          MapMember(entry, was, p);
        }
      }
    }
  }

  /** When a block leaves a decorated row, and what its extra columns were computed from. */
  lemma DecoratedRowAt<A, K(!new), S, R>(entries: nat -> seq<(K, S)>, entry: A -> (K, S), now: seq<A>, was: seq<A>, same: (S, S) -> bool,
                                         row: (S, Option<S>) -> R, log: seq<Delivery>, m: nat, a: A)
    requires DistinctHistory(entries) && a in now && entries(m) == Map(entry, now)
    requires m > 0 ==> entries(m - 1) == Map(entry, was)
    ensures var t, k := Replay(DecoratedFeed(entries, same, row), log), entry(a).0;
            && ((k, m) in t <==> WrittenAt(log, m, m == 0 || !Stays(entry, was, same, a)))
            && ((k, m) in t ==> DecoratedAs(entry, was, row, log, m, a, t[(k, m)]))
  {
    var feed, k := DecoratedFeed(entries, same, row), entry(a).0;
    ReplayRow(feed, log, k, m);
    forall d: Delivery | d in log && d.height == m
      ensures Writes(feed, d, k, m) <==> !(d.withPrevious && m > 0 && Stays(entry, was, same, a))
      ensures Writes(feed, d, k, m) ==> DecoratedAs(entry, was, row, log, m, a, Collect(feed(d))[k])
    {
      DecoratedBy(entries, entry, now, was, same, row, log, d, a);
    }
  }

  /** An entity that changed at a height that came both ways: the later delivery decides which row stays. */
  lemma DecoratedDependsOnOrder<K(!new), S, R>(entries: nat -> seq<(K, S)>, same: (S, S) -> bool, row: (S, Option<S>) -> R, h: nat, k: K)
    requires DistinctHistory(entries) && h > 0 && k in Collect(entries(h)) && k in Collect(entries(h - 1))
    requires !same(Collect(entries(h))[k], Collect(entries(h - 1))[k])
    ensures var feed, with, without := DecoratedFeed(entries, same, row), Delivery(h, true), Delivery(h, false);
            var t, u := Replay(feed, [with, without]), Replay(feed, [without, with]);
            && (k, h) in t && t[(k, h)] == row(Collect(entries(h))[k], None)
            && (k, h) in u && u[(k, h)] == row(Collect(entries(h))[k], Some(Collect(entries(h - 1))[k]))
  {
    var feed, with, without := DecoratedFeed(entries, same, row), Delivery(h, true), Delivery(h, false);
    DecoratedValue(entries, same, row, with, k);
    DecoratedValue(entries, same, row, without, k);
    LastWins(feed, [with], without, k);
    LastWins(feed, [without], with, k);
    assert [with] + [without] == [with, without] && [without] + [with] == [without, with];
  }

  /** Without its computed columns a decorated table is a snapshot table, on which all deliveries agree. */
  lemma DecoratedStatesAgree<K(!new), S, R>(entries: nat -> seq<(K, S)>, same: (S, S) -> bool, row: (S, Option<S>) -> R,
                                            state: R -> S, log: seq<Delivery>)
    requires DistinctHistory(entries) && forall s, o :: state(row(s, o)) == s
    ensures Agree(SnapshotFeed(entries, Never(), same), log)
    ensures ProjectTable(state, Replay(DecoratedFeed(entries, same, row), log)) == Replay(SnapshotFeed(entries, Never(), same), log)
  {
    var plain := SnapshotFeed(entries, Never(), same);
    SnapshotFeedAgrees(entries, Never(), same, log);
    forall d: Delivery
      ensures plain(d) == Project(state, DecoratedFeed(entries, same, row)(d))
    {
      ProjectDecorated(row, state, plain(d), PreviousState(entries, d));
    }
    ProjectTableIsReplay(DecoratedFeed(entries, same, row), plain, state, log);
  }

  /** The delta column of one row leads from the amount before to the amount now. */
  lemma ColumnLeads<S, R>(same: (S, S) -> bool, row: (S, Option<S>) -> R, amount: S -> nat, delta: R -> int, modulus: int, cur: S, prev: S)
    requires forall s :: amount(s) < modulus
    requires forall s, p :: delta(row(s, Some(p))) == Delta(amount(s), amount(p), modulus)
    requires forall s, p :: same(s, p) ==> amount(s) == amount(p)
    ensures delta(row(cur, Some(prev))) == Delta(amount(cur), amount(prev), modulus)
    ensures same(cur, prev) ==> delta(row(cur, Some(prev))) == 0
    ensures Congruent(amount(prev) + delta(row(cur, Some(prev))), amount(cur), modulus)
    ensures delta(row(cur, Some(prev))) == 0 <==> amount(cur) == amount(prev)
  {
    DeltaLeads(amount(cur), amount(prev), modulus);
  }

  /**
   Telescoping. While a key stays alive from c to h and every block above c came with the state
   before it, its value at c plus all later deltas is its value at h, modulo the column's width.
   */
  lemma {:induction false} Telescopes<K(!new), S, R>(entries: nat -> seq<(K, S)>, same: (S, S) -> bool, row: (S, Option<S>) -> R,
                                                     amount: S -> nat, delta: R -> int, modulus: int,
                                                     log: seq<Delivery>, k: K, c: nat, h: nat)
    requires DistinctHistory(entries) && c <= h
    requires forall i :: c <= i <= h ==> k in Collect(entries(i))
    requires forall i :: c < i <= h ==> Indexed(log, i)
    requires forall d :: d in log && c < d.height <= h ==> d.withPrevious
    requires forall s :: amount(s) < modulus
    requires forall s, p :: delta(row(s, Some(p))) == Delta(amount(s), amount(p), modulus)
    requires forall s, p :: same(s, p) ==> amount(s) == amount(p)
    ensures Congruent(amount(Collect(entries(c))[k]) + SumDeltas(Replay(DecoratedFeed(entries, same, row), log), k, delta, c, h),
                      amount(Collect(entries(h))[k]), modulus)
    decreases h
  {
    var t := Replay(DecoratedFeed(entries, same, row), log);
    var start := amount(Collect(entries(c))[k]);
    if h == c {
      CongruentBy(start + SumDeltas(t, k, delta, c, h), start, 0, modulus);
    } else {
      Telescopes(entries, same, row, amount, delta, modulus, log, k, c, h - 1);
      DecoratedRow(entries, same, row, log, k, h);
      var cur, prev := Collect(entries(h))[k], Collect(entries(h - 1))[k];
      ColumnLeads(same, row, amount, delta, modulus, cur, prev);
      assert SumDeltas(t, k, delta, c, h) == SumDeltas(t, k, delta, c, h - 1) + Delta(amount(cur), amount(prev), modulus);
      CongruentAdd(start + SumDeltas(t, k, delta, c, h - 1), amount(prev), Delta(amount(cur), amount(prev), modulus),
                   amount(cur), modulus);
    }
  }
}
