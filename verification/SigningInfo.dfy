/** Two-phase change detection for counters: missed blocks and double-sign evidence, which disappear when reset. */
module SigningInfo {
  import opened Encoding
  import opened Tables
  import opened ChangeDetection
  import opened Chain

  // ================================================================ the two phases, for any counter

  /** Phase 1: counters that are new or moved. */
  function Updates<K(==), R>(cur: seq<(K, R)>, prev: map<K, R>, moved: (R, Option<R>) -> bool): seq<(K, R)> {
    if cur == [] then []
    else
      var x := cur[|cur| - 1];
      Updates(cur[..|cur| - 1], prev, moved) + if moved(x.1, Lookup(prev, x.0)) then [x] else []
  }

  /** Phase 2: counters that were there before and are gone. */
  function Clears<K(==), R>(prev: seq<(K, R)>, cur: map<K, R>, zero: R): seq<(K, R)> {
    if prev == [] then []
    else
      var x := prev[|prev| - 1];
      Clears(prev[..|prev| - 1], cur, zero) + if x.0 !in cur then [(x.0, zero)] else []
  }

  function TwoPhase<K(==), R>(cur: seq<(K, R)>, prev: seq<(K, R)>, moved: (R, Option<R>) -> bool, zero: R): seq<(K, R)> {
    Updates(cur, Collect(prev), moved) + Clears(prev, Collect(cur), zero)
  }

  lemma UpdatesSnoc<K, R>(cur: seq<(K, R)>, x: (K, R), prev: map<K, R>, moved: (R, Option<R>) -> bool)
    ensures Updates(cur + [x], prev, moved) == Updates(cur, prev, moved) + if moved(x.1, Lookup(prev, x.0)) then [x] else []
  {
    assert (cur + [x])[..|cur|] == cur;
  }

  lemma ClearsSnoc<K, R>(prev: seq<(K, R)>, x: (K, R), cur: map<K, R>, zero: R)
    ensures Clears(prev + [x], cur, zero) == Clears(prev, cur, zero) + if x.0 !in cur then [(x.0, zero)] else []
  {
    assert (prev + [x])[..|prev|] == prev;
  }

  lemma {:induction false} UpdatesCollect<K, R>(cur: seq<(K, R)>, prev: map<K, R>, moved: (R, Option<R>) -> bool, k: K)
    requires DistinctKeys(cur)
    ensures k in Collect(Updates(cur, prev, moved)) <==> k in Collect(cur) && moved(Collect(cur)[k], Lookup(prev, k))
    ensures k in Collect(Updates(cur, prev, moved)) ==> Collect(Updates(cur, prev, moved))[k] == Collect(cur)[k]
  {
    if cur != [] {
      var n := |cur| - 1;
      var x, rest := cur[n], cur[..n];
      UpdatesCollect(rest, prev, moved, k);
      CollectKeys(rest, k);
      assert k in Collect(rest) ==> k != x.0;
      if moved(x.1, Lookup(prev, x.0)) {
        CollectSnoc(Updates(rest, prev, moved), x);
      } else {
        assert Updates(cur, prev, moved) == Updates(rest, prev, moved);
      }
    }
  }

  /** Appending the second phase to the first adds exactly the keys that are gone, at zero. */
  lemma {:induction false} ClearsCollect<K, R>(first: seq<(K, R)>, prev: seq<(K, R)>, cur: map<K, R>, zero: R, k: K)
    ensures var both := Collect(first + Clears(prev, cur, zero));
            var cleared := k in Collect(prev) && k !in cur;
            && (k in both <==> cleared || k in Collect(first))
            && (cleared ==> both[k] == zero)
            && (!cleared && k in both ==> both[k] == Collect(first)[k])
  {
    if prev == [] {
      assert first + Clears(prev, cur, zero) == first;
    } else {
      var n := |prev| - 1;
      var x, rest := prev[n], prev[..n];
      ClearsCollect(first, rest, cur, zero, k);
      if x.0 !in cur {
        assert first + Clears(prev, cur, zero) == (first + Clears(rest, cur, zero)) + [(x.0, zero)];
        CollectSnoc(first + Clears(rest, cur, zero), (x.0, zero));
      } else {
        assert first + Clears(prev, cur, zero) == first + Clears(rest, cur, zero);
      }
    }
  }

  lemma {:induction false} UpdatesFrom<K, R>(cur: seq<(K, R)>, prev: map<K, R>, moved: (R, Option<R>) -> bool, x: (K, R))
    requires x in Updates(cur, prev, moved)
    ensures x in cur
  {
    if cur[|cur| - 1] != x {
      UpdatesFrom(cur[..|cur| - 1], prev, moved, x);
    }
  }

  lemma {:induction false} ClearsFrom<K, R>(prev: seq<(K, R)>, cur: map<K, R>, zero: R, x: (K, R))
    requires x in Clears(prev, cur, zero)
    ensures x.0 !in cur && x.1 == zero
  {
    var n := |prev| - 1;
    if x in Clears(prev[..n], cur, zero) {
      ClearsFrom(prev[..n], cur, zero, x);
    }
  }

  /** A statement brings a counter that is listed, or zero for a key that is not. */
  lemma TwoPhaseFrom<K, R>(cur: seq<(K, R)>, prev: seq<(K, R)>, moved: (R, Option<R>) -> bool, zero: R, x: (K, R))
    requires DistinctKeys(cur) && x in TwoPhase(cur, prev, moved, zero)
    ensures x.1 == if x.0 in Collect(cur) then Collect(cur)[x.0] else zero
  {
    if x in Updates(cur, Collect(prev), moved) {
      UpdatesFrom(cur, Collect(prev), moved, x);
      var i :| 0 <= i < |cur| && cur[i] == x;
      CollectDistinct(cur, i);
    } else {
      ClearsFrom(prev, Collect(cur), zero, x);
    }
  }

  ghost function PreviousEntries<K, R>(entries: nat -> seq<(K, R)>, d: Delivery): seq<(K, R)> {
    if d.HasPrevious() then entries(d.height - 1) else []
  }

  ghost function CounterFeed<K, R>(entries: nat -> seq<(K, R)>, moved: (R, Option<R>) -> bool, zero: R): Feed<K, R> {
    (d: Delivery) => TwoPhase(entries(d.height), PreviousEntries(entries, d), moved, zero)
  }

  // ================================================================ what a reader gets back

  /** The chain's counter of a key: zero when the key is not listed. */
  ghost function CounterAt<K, R>(entries: nat -> seq<(K, R)>, value: R -> nat, k: K, h: nat): nat {
    if k in Collect(entries(h)) then value(Collect(entries(h))[k]) else 0
  }

  /** The table's counter of a key as of h: zero when it has no row. */
  ghost function CounterRead<K, R>(t: Table<K, R>, value: R -> nat, k: K, h: nat): nat {
    match AsOf(t, k, h) case None => 0 case Some(r) => value(r)
  }

  /** The counter goes back to zero at h, and every block committed for h came without the state before it. */
  ghost predicate ResetUnseen<K, R>(entries: nat -> seq<(K, R)>, moved: (R, Option<R>) -> bool, value: R -> nat,
                                    log: seq<Delivery>, k: K, h: nat)
    requires h > 0
  {
    && CounterAt(entries, value, k, h - 1) != 0
    && (k !in Collect(entries(h)) || !moved(Collect(entries(h))[k], None))
    && forall d :: d in log && d.height == h ==> !d.withPrevious
  }

  /** How a converter must decide that a counter moved, against an earlier one or against none. */
  ghost predicate Sound<R(!new)>(moved: (R, Option<R>) -> bool, value: R -> nat, zero: R) {
    && value(zero) == 0
    && (forall r :: !moved(r, None) ==> value(r) == 0)
    && (forall r, p :: !moved(r, Some(p)) ==> value(r) == value(p))
  }

  lemma MovedSound<R(!new)>(moved: (R, Option<R>) -> bool, value: R -> nat, zero: R, r: R, p: Option<R>)
    requires Sound(moved, value, zero) && !moved(r, p)
    ensures value(r) == match p case None => 0 case Some(q) => value(q)
  {
  }

  /** What one delivery does to the counter of a key. */
  lemma DeliveryWrites<K, R(!new)>(entries: nat -> seq<(K, R)>, moved: (R, Option<R>) -> bool, value: R -> nat, zero: R,
                                   d: Delivery, k: K)
    requires DistinctHistory(entries) && Sound(moved, value, zero)
    ensures var feed, cur := CounterFeed(entries, moved, zero), Collect(entries(d.height));
            && (k in Collect(feed(d)) ==> value(Collect(feed(d))[k]) == CounterAt(entries, value, k, d.height))
            && (k !in Collect(feed(d)) && d.HasPrevious() ==>
                 CounterAt(entries, value, k, d.height) == CounterAt(entries, value, k, d.height - 1) &&
                 (k in cur ==> !moved(cur[k], Lookup(Collect(entries(d.height - 1)), k))))
            && (!d.HasPrevious() ==> (k in Collect(feed(d)) <==> k in cur && moved(cur[k], None)))
  {
    var prev, cur := PreviousEntries(entries, d), entries(d.height);
    UpdatesCollect(cur, Collect(prev), moved, k);
    ClearsCollect(Updates(cur, Collect(prev), moved), prev, Collect(cur), zero, k);
    if k in Collect(cur) && !moved(Collect(cur)[k], Lookup(Collect(prev), k)) {
      MovedSound(moved, value, zero, Collect(cur)[k], Lookup(Collect(prev), k));
    }
  }

  ghost predicate Settled<K, R>(entries: nat -> seq<(K, R)>, moved: (R, Option<R>) -> bool, value: R -> nat, zero: R,
                                log: seq<Delivery>, k: K, h: nat)
  {
    CounterRead(Replay(CounterFeed(entries, moved, zero), log), value, k, h) == CounterAt(entries, value, k, h)
  }

  /** One height: a counter that reads right stays right exactly when the height does not hide a reset. */
  lemma CounterStep<K, R(!new)>(entries: nat -> seq<(K, R)>, moved: (R, Option<R>) -> bool, value: R -> nat, zero: R,
                                log: seq<Delivery>, k: K, h: nat)
    requires DistinctHistory(entries) && Sound(moved, value, zero)
    requires h > 0 && Indexed(log, h) && Settled(entries, moved, value, zero, log, k, h - 1)
    ensures Settled(entries, moved, value, zero, log, k, h) <==> !ResetUnseen(entries, moved, value, log, k, h)
  {
    var feed := CounterFeed(entries, moved, zero);
    ReplayRow(feed, log, k, h);
    forall d: Delivery {
      DeliveryWrites(entries, moved, value, zero, d, k);
    }
    if k in Collect(entries(h)) && !moved(Collect(entries(h))[k], None) {
      MovedSound(moved, value, zero, Collect(entries(h))[k], None);
    }
    if (k, h) !in Replay(feed, log) {
      assert forall d :: d in log && d.height == h ==> !Writes(feed, d, k, h);
    }
  }

  /** A counter that is gone at a height only ever delivered without the state before it keeps its old reading there. */
  lemma GoneKeepsReading<K, R(!new)>(entries: nat -> seq<(K, R)>, moved: (R, Option<R>) -> bool, value: R -> nat, zero: R,
                                     log: seq<Delivery>, k: K, h: nat)
    requires DistinctHistory(entries) && Sound(moved, value, zero)
    requires h > 0 && k !in Collect(entries(h)) && forall d :: d in log && d.height == h ==> !d.withPrevious
    ensures var t := Replay(CounterFeed(entries, moved, zero), log);
            CounterRead(t, value, k, h) == CounterRead(t, value, k, h - 1)
  {
    var feed := CounterFeed(entries, moved, zero);
    ReplayRow(feed, log, k, h);
    forall d: Delivery {
      DeliveryWrites(entries, moved, value, zero, d, k);
    }
  }

  /** Before height 1 a counter reads right exactly when height 0 was committed or the counter is zero there. */
  lemma CounterAtGenesis<K, R(!new)>(entries: nat -> seq<(K, R)>, moved: (R, Option<R>) -> bool, value: R -> nat, zero: R,
                                     log: seq<Delivery>, k: K)
    requires DistinctHistory(entries) && Sound(moved, value, zero)
    ensures Settled(entries, moved, value, zero, log, k, 0) <==> Indexed(log, 0) || CounterAt(entries, value, k, 0) == 0
    ensures (k, 0 as nat) in Replay(CounterFeed(entries, moved, zero), log) ==> Indexed(log, 0)
  {
    var feed := CounterFeed(entries, moved, zero);
    ReplayRow(feed, log, k, 0);
    forall d: Delivery {
      DeliveryWrites(entries, moved, value, zero, d, k);
    }
    if k in Collect(entries(0)) && !moved(Collect(entries(0))[k], None) {
      MovedSound(moved, value, zero, Collect(entries(0))[k], None);
    }
    if Indexed(log, 0) {
      var d :| d in log && d.height == 0;
      assert Writes(feed, d, k, 0) <==> k in Collect(feed(d));
    }
  }

  /** A nonzero counter that stands as it was before height 1, in a log whose first block came with the state before it. */
  ghost predicate Standing<K, R>(entries: nat -> seq<(K, R)>, moved: (R, Option<R>) -> bool, value: R -> nat, log: seq<Delivery>, k: K) {
    && CounterAt(entries, value, k, 1) != 0
    && k in Collect(entries(1)) && k in Collect(entries(0)) && !moved(Collect(entries(1))[k], Some(Collect(entries(0))[k]))
    && forall d :: d in log && d.height <= 1 ==> d.HasPrevious()
  }

  /** At height 1 a counter reads right exactly when it does not merely stand, and no reset of a known count is hidden. */
  lemma CounterAtFirst<K, R(!new)>(entries: nat -> seq<(K, R)>, moved: (R, Option<R>) -> bool, value: R -> nat, zero: R,
                                   log: seq<Delivery>, k: K)
    requires DistinctHistory(entries) && Sound(moved, value, zero) && Indexed(log, 1)
    ensures Settled(entries, moved, value, zero, log, k, 1) <==>
            !Standing(entries, moved, value, log, k) && (Indexed(log, 0) ==> !ResetUnseen(entries, moved, value, log, k, 1))
  {
    CounterAtGenesis(entries, moved, value, zero, log, k);
    if Standing(entries, moved, value, log, k) {
      StandingIsUnseen(entries, moved, value, zero, log, k);
    } else if Settled(entries, moved, value, zero, log, k, 0) {
      CounterStep(entries, moved, value, zero, log, k, 1);
    } else {
      UnknownAtFirst(entries, moved, value, zero, log, k);
    }
  }

  lemma StandingIsUnseen<K, R(!new)>(entries: nat -> seq<(K, R)>, moved: (R, Option<R>) -> bool, value: R -> nat, zero: R,
                                     log: seq<Delivery>, k: K)
    requires DistinctHistory(entries) && Sound(moved, value, zero) && Standing(entries, moved, value, log, k)
    ensures !Settled(entries, moved, value, zero, log, k, 1)
  {
    var feed := CounterFeed(entries, moved, zero);
    ReplayRow(feed, log, k, 1);
    CounterAtGenesis(entries, moved, value, zero, log, k);
    assert !Indexed(log, 0);
    forall d | d in log && d.height == 1 ensures k !in Collect(feed(d)) {
      UpdatesCollect(entries(1), Collect(entries(0)), moved, k);
      ClearsCollect(Updates(entries(1), Collect(entries(0)), moved), entries(0), Collect(entries(1)), zero, k);
    }
  }

  lemma UnknownAtFirst<K, R(!new)>(entries: nat -> seq<(K, R)>, moved: (R, Option<R>) -> bool, value: R -> nat, zero: R,
                                   log: seq<Delivery>, k: K)
    requires DistinctHistory(entries) && Sound(moved, value, zero) && Indexed(log, 1)
    requires !Settled(entries, moved, value, zero, log, k, 0) && !Standing(entries, moved, value, log, k)
    ensures Settled(entries, moved, value, zero, log, k, 1)
  {
    var feed := CounterFeed(entries, moved, zero);
    ReplayRow(feed, log, k, 1);
    CounterAtGenesis(entries, moved, value, zero, log, k);
    if (k, 1) in Replay(feed, log) {
      var d :| d in log && Writes(feed, d, k, 1) && Replay(feed, log)[(k, 1)] == Collect(feed(d))[k];
      DeliveryWrites(entries, moved, value, zero, d, k);
    } else if CounterAt(entries, value, k, 1) != 0 {
      var d := Revealing(entries, moved, value, log, k);
      DeliveryWrites(entries, moved, value, zero, d, k);
      MovedUnlessZero(moved, value, zero, Collect(entries(1))[k]);
      assert Writes(feed, d, k, 1);
    }
  }

  lemma MovedUnlessZero<R(!new)>(moved: (R, Option<R>) -> bool, value: R -> nat, zero: R, r: R)
    requires Sound(moved, value, zero) && value(r) != 0
    ensures moved(r, None)
  {
  }

  /** A counter that does not merely stand at height 1 has a delivery of height 1 that shows it. */
  lemma Revealing<K, R>(entries: nat -> seq<(K, R)>, moved: (R, Option<R>) -> bool, value: R -> nat, log: seq<Delivery>, k: K) returns (d: Delivery)
    requires Indexed(log, 1) && !Indexed(log, 0) && CounterAt(entries, value, k, 1) != 0 && !Standing(entries, moved, value, log, k)
    requires k in Collect(entries(0))
    ensures d in log && d.height == 1 && k in Collect(entries(1))
    ensures d.HasPrevious() ==> moved(Collect(entries(1))[k], Some(Collect(entries(0))[k]))
  {
    if c :| c in log && c.height <= 1 && !c.HasPrevious() {
      assert c.height == 1;
      d := c;
    } else {
      d :| d in log && d.height == 1;
    }
  }

  /** Up to h, no count merely stands from before height 1, and none goes back to zero where that cannot be seen. */
  ghost predicate EveryChangeSeen<K, R>(entries: nat -> seq<(K, R)>, moved: (R, Option<R>) -> bool, value: R -> nat,
                                        log: seq<Delivery>, k: K, h: nat)
  {
    && (h > 0 ==> !Standing(entries, moved, value, log, k))
    && (h > 0 && Indexed(log, 0) ==> !ResetUnseen(entries, moved, value, log, k, 1))
    && forall i :: 2 <= i <= h ==> !ResetUnseen(entries, moved, value, log, k, i)
  }

  lemma {:induction false} SeenChangesSettle<K, R(!new)>(entries: nat -> seq<(K, R)>, moved: (R, Option<R>) -> bool,
                                                         value: R -> nat, zero: R, log: seq<Delivery>, k: K, h: nat)
    requires DistinctHistory(entries) && Sound(moved, value, zero)
    requires h > 0 && IndexedThrough(log, h) && EveryChangeSeen(entries, moved, value, log, k, h)
    ensures Settled(entries, moved, value, zero, log, k, h)
  {
    assert Indexed(log, h);
    if h == 1 {
      CounterAtFirst(entries, moved, value, zero, log, k);
    } else {
      SeenChangesSettle(entries, moved, value, zero, log, k, h - 1);
      CounterStep(entries, moved, value, zero, log, k, h);
    }
  }

  /**
   Reconstruction with resets, for every key, those that left and those older than height 1 included: the
   table reads as the chain does at every height from 1 to h exactly when every change was seen.
   */
  lemma CountersReconstruct<K, R(!new)>(entries: nat -> seq<(K, R)>, moved: (R, Option<R>) -> bool,
                                        value: R -> nat, zero: R, log: seq<Delivery>, k: K, h: nat)
    requires DistinctHistory(entries) && Sound(moved, value, zero)
    requires IndexedThrough(log, h)
    ensures (forall i :: 1 <= i <= h ==> Settled(entries, moved, value, zero, log, k, i)) <==>
            EveryChangeSeen(entries, moved, value, log, k, h)
  {
    if EveryChangeSeen(entries, moved, value, log, k, h) {
      forall i: nat | 1 <= i <= h ensures Settled(entries, moved, value, zero, log, k, i) {
        SeenChangesSettle(entries, moved, value, zero, log, k, i);
      }
    }
    if h > 0 && forall i :: 1 <= i <= h ==> Settled(entries, moved, value, zero, log, k, i) {
      assert Indexed(log, 1);
      CounterAtFirst(entries, moved, value, zero, log, k);
      forall i: nat | 2 <= i <= h ensures !ResetUnseen(entries, moved, value, log, k, i) {
        assert Settled(entries, moved, value, zero, log, k, i - 1);
        CounterStep(entries, moved, value, zero, log, k, i);
      }
    }
  }

  /** Two deliveries of one height never write different counters for a key, with or without the state before it. */
  lemma CounterFeedAgrees<K(!new), R(!new)>(entries: nat -> seq<(K, R)>, moved: (R, Option<R>) -> bool, zero: R, log: seq<Delivery>)
    requires DistinctHistory(entries)
    ensures Agree(CounterFeed(entries, moved, zero), log)
  {
    var feed := CounterFeed(entries, moved, zero);
    forall c, d, k | c in log && d in log && c.height == d.height && k in Collect(feed(c)) && k in Collect(feed(d))
      ensures Collect(feed(c))[k] == Collect(feed(d))[k]
    {
      CounterRowIs(entries, moved, zero, c, k);
      CounterRowIs(entries, moved, zero, d, k);
    }
  }

  lemma CounterRowIs<K, R>(entries: nat -> seq<(K, R)>, moved: (R, Option<R>) -> bool, zero: R, d: Delivery, k: K)
    requires DistinctHistory(entries) && k in Collect(CounterFeed(entries, moved, zero)(d))
    ensures var cur := Collect(entries(d.height));
            Collect(CounterFeed(entries, moved, zero)(d))[k] == if k in cur then cur[k] else zero
  {
    var prev, cur := PreviousEntries(entries, d), entries(d.height);
    UpdatesCollect(cur, Collect(prev), moved, k);
    ClearsCollect(Updates(cur, Collect(prev), moved), prev, Collect(cur), zero, k);
  }

  /** What two lists make of a key: listed now, and moved against the one before; or gone since then. */
  ghost predicate CounterMoved<K, R>(now: seq<(K, R)>, was: seq<(K, R)>, moved: (R, Option<R>) -> bool, k: K) {
    var cur, prev := Collect(now), Collect(was);
    if k in cur then moved(cur[k], Lookup(prev, k)) else k in prev
  }

  lemma TwoPhaseWrites<K, R>(now: seq<(K, R)>, was: seq<(K, R)>, moved: (R, Option<R>) -> bool, zero: R, k: K)
    requires DistinctKeys(now)
    ensures var c, cur := Collect(TwoPhase(now, was, moved, zero)), Collect(now);
            && (k in c <==> CounterMoved(now, was, moved, k))
            && (k in c ==> c[k] == if k in cur then cur[k] else zero)
  {
    UpdatesCollect(now, Collect(was), moved, k);
    ClearsCollect(Updates(now, Collect(was), moved), was, Collect(now), zero, k);
  }

  /** A block of height m is committed that wrote something by itself, or beside the block before it. */
  ghost predicate WrittenWith(log: seq<Delivery>, m: nat, alone: bool, beside: bool) {
    (alone && WrittenAt(log, m, false)) || (beside && m > 0 && Delivery(m, true) in log)
  }

  /** When a block leaves a counter row, and that it holds the counter, or zero for a key that is gone. */
  lemma CounterRowAt<K, R>(entries: nat -> seq<(K, R)>, moved: (R, Option<R>) -> bool, zero: R, log: seq<Delivery>, k: K, m: nat)
    requires DistinctHistory(entries)
    ensures var t, cur := Replay(CounterFeed(entries, moved, zero), log), Collect(entries(m));
            && ((k, m) in t <==> WrittenWith(log, m, CounterMoved(entries(m), [], moved, k),
                                             m > 0 && CounterMoved(entries(m), entries(m - 1), moved, k)))
            && ((k, m) in t ==> t[(k, m)] == if k in cur then cur[k] else zero)
  {
    var feed := CounterFeed(entries, moved, zero);
    ReplayRow(feed, log, k, m);
    forall d: Delivery | d.height == m
      ensures Writes(feed, d, k, m) <==> CounterMoved(entries(m), if d.withPrevious && m > 0 then entries(m - 1) else [], moved, k)
      ensures Writes(feed, d, k, m) ==> Collect(feed(d))[k] == if k in Collect(entries(m)) then Collect(entries(m))[k] else zero
    {
      TwoPhaseWrites(entries(m), PreviousEntries(entries, d), moved, zero, k);
    }
    if d :| d in log && Writes(feed, d, k, m) && d.withPrevious && m > 0 {
      assert d == Delivery(m, true);
    }
  }

  /** What a list of entities without repeated keys says about the key of one of them, or about a key it does not have. */
  lemma ListLookup<A, K, R>(entry: A -> (K, R), list: seq<A>, k: K)
    requires DistinctKeys(Map(entry, list))
    ensures k in Collect(Map(entry, list)) <==> exists a :: a in list && entry(a).0 == k
    ensures forall a :: a in list && entry(a).0 == k ==> Lookup(Collect(Map(entry, list)), k) == Some(entry(a).1)
  {
    forall a | a in list ensures entry(a).0 in Collect(Map(entry, list)) && Collect(Map(entry, list))[entry(a).0] == entry(a).1 {
      MapMember(entry, list, a);
    }
    if k in Collect(Map(entry, list)) {
      var a := MapOrigin(entry, list, k);
    }
  }

  // ================================================================ missed blocks

  datatype NonSignerRow = NonSignerRow(missedBlocksCount: U64)

  function NonSignerEntry(n: NonSigner): (string, NonSignerRow) { (Hex(n.address), NonSignerRow(n.counter)) }

  function ToNonSignerRow(n: NonSigner): NonSignerRow { NonSignerRow(n.counter) }

  /** A counter is written when it is new or different. */
  predicate MissedMoved(cur: NonSignerRow, prev: Option<NonSignerRow>) {
    prev.None? || cur.missedBlocksCount != prev.value.missedBlocksCount
  }

  function Missed(r: NonSignerRow): nat { r.missedBlocksCount }

  method IndexNonSigners(list: seq<NonSigner>) returns (m: map<string, NonSigner>)
    ensures Mirrors(m, Collect(Map(NonSignerEntry, list)), ToNonSignerRow)
  {
    m := map[];
    for i := 0 to |list|
      invariant Mirrors(m, Collect(Map(NonSignerEntry, list[..i])), ToNonSignerRow)
    {
      IndexStep(m, NonSignerEntry, ToNonSignerRow, list, i);
      m := m[Hex(list[i].address) := list[i]];
    }
    assert list[..|list|] == list;
  }

  method UpdateNonSigners(current: seq<NonSigner>, prevMap: map<string, NonSigner>, ghost before: map<string, NonSignerRow>)
    returns (results: seq<(string, NonSignerRow)>)
    requires Mirrors(prevMap, before, ToNonSignerRow)
    ensures results == Updates(Map(NonSignerEntry, current), before, MissedMoved)
  {
    results := [];
    for i := 0 to |current|
      invariant results == Updates(Map(NonSignerEntry, current[..i]), before, MissedMoved)
    {
      var curr := current[i];
      var address := Hex(curr.address);
      var changed := false;
      if address !in prevMap {
        changed := true;
      } else if curr.counter != prevMap[address].counter {
        changed := true;
      }
      MapStep(NonSignerEntry, current, i);
      UpdatesSnoc(Map(NonSignerEntry, current[..i]), NonSignerEntry(curr), before, MissedMoved);
      if changed {
        results := results + [(address, NonSignerRow(curr.counter))];
      }
    }
    assert current[..|current|] == current;
  }

  method ClearNonSigners(previous: seq<NonSigner>, currMap: map<string, NonSigner>, ghost now: map<string, NonSignerRow>)
    returns (results: seq<(string, NonSignerRow)>)
    requires Mirrors(currMap, now, ToNonSignerRow)
    ensures results == Clears(Map(NonSignerEntry, previous), now, NonSignerRow(0))
  {
    results := [];
    for i := 0 to |previous|
      invariant results == Clears(Map(NonSignerEntry, previous[..i]), now, NonSignerRow(0))
    {
      var address := Hex(previous[i].address);
      MapStep(NonSignerEntry, previous, i);
      ClearsSnoc(Map(NonSignerEntry, previous[..i]), NonSignerEntry(previous[i]), now, NonSignerRow(0));
      if address !in currMap {
        results := results + [(address, NonSignerRow(0))];
      }
    }
    assert previous[..|previous|] == previous;
  }

  method ConvertNonSigners(current: seq<NonSigner>, previous: seq<NonSigner>) returns (results: seq<(string, NonSignerRow)>)
    ensures results == TwoPhase(Map(NonSignerEntry, current), Map(NonSignerEntry, previous), MissedMoved, NonSignerRow(0))
  {
    var prevMap := IndexNonSigners(previous);
    var currMap := IndexNonSigners(current);
    var updates := UpdateNonSigners(current, prevMap, Collect(Map(NonSignerEntry, previous)));
    var clears := ClearNonSigners(previous, currMap, Collect(Map(NonSignerEntry, current)));
    results := updates + clears;
  }

  function NonSignerHistory(chain: Chain): nat -> seq<(string, NonSignerRow)> {
    (h: nat) => Map(NonSignerEntry, chain(h).nonSigners)
  }

  ghost function NonSignerFeed(chain: Chain): Feed<string, NonSignerRow> {
    CounterFeed(NonSignerHistory(chain), MissedMoved, NonSignerRow(0))
  }

  ghost predicate DistinctNonSigners(chain: Chain) {
    forall h: nat, i, j :: 0 <= i < j < |chain(h).nonSigners| ==> chain(h).nonSigners[i].address != chain(h).nonSigners[j].address
  }

  lemma NonSignerKeysDistinct(chain: Chain)
    requires DistinctNonSigners(chain)
    ensures DistinctHistory(NonSignerHistory(chain))
  {
    forall g: nat
      ensures DistinctKeys(NonSignerHistory(chain)(g))
    {
      forall i, j | 0 <= i < j < |chain(g).nonSigners|
        ensures NonSignerEntry(chain(g).nonSigners[i]).0 != NonSignerEntry(chain(g).nonSigners[j]).0
      {
        HexInjective(chain(g).nonSigners[i].address, chain(g).nonSigners[j].address);
      }
      MapDistinct(NonSignerEntry, chain(g).nonSigners);
    }
  }

  /** The chain's missed blocks of an address at h: its counter, or none where it is not listed. */
  ghost predicate MissedIs(chain: Chain, h: nat, address: Bytes, count: nat) {
    && (forall n :: n in chain(h).nonSigners && n.address == address ==> count == n.counter)
    && ((forall n :: n in chain(h).nonSigners ==> n.address != address) ==> count == 0)
  }

  /** What the counter columns are compared with is the chain's counter of the address. */
  lemma MissedIsCounter(chain: Chain, h: nat, address: Bytes)
    requires DistinctNonSigners(chain)
    ensures forall count :: MissedIs(chain, h, address, count) <==> count == CounterAt(NonSignerHistory(chain), Missed, Hex(address), h)
  {
    NonSignerKeysDistinct(chain);
    assert DistinctKeys(NonSignerHistory(chain)(h));
    NonSignerLookup(chain(h).nonSigners, address);
  }

  /** The table left by the log reads that as of i. */
  ghost predicate MissedReads(chain: Chain, log: seq<Delivery>, address: Bytes, i: nat) {
    MissedIs(chain, i, address, CounterRead(Replay(NonSignerFeed(chain), log), Missed, Hex(address), i))
  }

  lemma MissedSettled(chain: Chain, log: seq<Delivery>, i: nat, address: Bytes)
    requires DistinctNonSigners(chain)
    ensures Settled(NonSignerHistory(chain), MissedMoved, Missed, NonSignerRow(0), log, Hex(address), i) <==>
            MissedReads(chain, log, address, i)
  {
    MissedIsCounter(chain, i, address);
  }

  /** At every height from 1 to h, the missed-block counter of any address reads as the chain has it, or zero where it has none. */
  lemma MissedBlocksReconstruct(chain: Chain, log: seq<Delivery>, h: nat, address: Bytes)
    requires DistinctNonSigners(chain) && IndexedThrough(log, h)
    ensures (forall i :: 1 <= i <= h ==> MissedReads(chain, log, address, i)) <==>
            EveryChangeSeen(NonSignerHistory(chain), MissedMoved, Missed, log, Hex(address), h)
  {
    var history := NonSignerHistory(chain);
    NonSignerKeysDistinct(chain);
    MissedSound();
    CountersReconstruct(history, MissedMoved, Missed, NonSignerRow(0), log, Hex(address), h);
    if EveryChangeSeen(history, MissedMoved, Missed, log, Hex(address), h) {
      forall i: nat | 1 <= i <= h ensures MissedReads(chain, log, address, i) {
        MissedSettled(chain, log, i, address);
      }
    } else {
      var i: nat :| 1 <= i <= h && !Settled(history, MissedMoved, Missed, NonSignerRow(0), log, Hex(address), i);
      MissedSettled(chain, log, i, address);
    }
  }

  lemma NonSignerLookup(list: seq<NonSigner>, address: Bytes)
    requires DistinctKeys(Map(NonSignerEntry, list))
    ensures Hex(address) in Collect(Map(NonSignerEntry, list)) <==> exists n :: n in list && n.address == address
    ensures forall n :: n in list && n.address == address ==>
              Lookup(Collect(Map(NonSignerEntry, list)), Hex(address)) == Some(NonSignerRow(n.counter))
  {
    ListLookup(NonSignerEntry, list, Hex(address));
    forall n: NonSigner ensures Hex(n.address) == Hex(address) <==> n.address == address {
      HexInjective(n.address, address);
    }
  }

  /** Listed now and new or with another counter than before, or listed before and no longer. */
  ghost predicate MissedWritten(now: seq<NonSigner>, was: seq<NonSigner>, address: Bytes) {
    || (exists n :: n in now && n.address == address && forall p :: p in was && p.address == address ==> p.counter != n.counter)
    || ((exists p :: p in was && p.address == address) && forall n :: n in now ==> n.address != address)
  }

  lemma MissedWrittenMeans(now: seq<NonSigner>, was: seq<NonSigner>, address: Bytes)
    requires DistinctKeys(Map(NonSignerEntry, now)) && DistinctKeys(Map(NonSignerEntry, was))
    ensures CounterMoved(Map(NonSignerEntry, now), Map(NonSignerEntry, was), MissedMoved, Hex(address)) <==> MissedWritten(now, was, address)
  {
    NonSignerLookup(now, address);
    NonSignerLookup(was, address);
  }

  /** When a block leaves a row for an address, and that the row holds its counter, or zero once it is not listed. */
  lemma MissedRowAt(chain: Chain, log: seq<Delivery>, m: nat, address: Bytes)
    requires DistinctNonSigners(chain)
    ensures var t, k := Replay(NonSignerFeed(chain), log), (Hex(address), m);
            && (k in t <==> WrittenWith(log, m, MissedWritten(chain(m).nonSigners, [], address),
                                        m > 0 && MissedWritten(chain(m).nonSigners, chain(m - 1).nonSigners, address)))
            && (k in t ==> forall n :: n in chain(m).nonSigners && n.address == address ==> t[k].missedBlocksCount == n.counter)
            && (k in t && (forall n :: n in chain(m).nonSigners ==> n.address != address) ==> t[k].missedBlocksCount == 0)
  {
    var history := NonSignerHistory(chain);
    NonSignerKeysDistinct(chain);
    CounterRowAt(history, MissedMoved, NonSignerRow(0), log, Hex(address), m);
    assert DistinctKeys(history(m)) && Map(NonSignerEntry, []) == [];
    NonSignerLookup(chain(m).nonSigners, address);
    MissedWrittenMeans(chain(m).nonSigners, [], address);
    if m > 0 {
      assert DistinctKeys(history(m - 1));
      MissedWrittenMeans(chain(m).nonSigners, chain(m - 1).nonSigners, address);
    }
  }

  /** A chain on which one address is listed at height 1 only. */
  function OneMissChain(n: NonSigner): Chain {
    (h: nat) => if h == 1 then NOTHING.(nonSigners := [n]) else NOTHING
  }

  lemma OneMissDistinct(n: NonSigner)
    ensures DistinctNonSigners(OneMissChain(n)) && n in OneMissChain(n)(1).nonSigners
  {
  }

  lemma OneMissGone(n: NonSigner)
    ensures NonSignerHistory(OneMissChain(n))(0) == [] && NonSignerHistory(OneMissChain(n))(2) == []
  {
    assert OneMissChain(n)(0) == NOTHING && OneMissChain(n)(2) == NOTHING;
    assert NOTHING.nonSigners == [];
  }

  /** A counter listed at height 1 only, whose end at 2 is delivered without the state before it. */
  lemma ListedThenGone<K, R(!new)>(entries: nat -> seq<(K, R)>, moved: (R, Option<R>) -> bool, value: R -> nat, zero: R,
                                   log: seq<Delivery>, k: K)
    requires DistinctHistory(entries) && Sound(moved, value, zero)
    requires entries(0) == [] && entries(2) == [] && Indexed(log, 1)
    requires forall d :: d in log ==> d.height == 1 || (d.height == 2 && !d.withPrevious)
    ensures CounterRead(Replay(CounterFeed(entries, moved, zero), log), value, k, 2) == CounterAt(entries, value, k, 1)
    ensures CounterAt(entries, value, k, 2) == 0
  {
    CounterAtFirst(entries, moved, value, zero, log, k);
    assert Settled(entries, moved, value, zero, log, k, 1);
    GoneKeepsReading(entries, moved, value, zero, log, k, 2);
  }

  /** An address that misses blocks and then leaves at a height delivered without the state before it keeps its count, where the chain has none. */
  lemma LostReset(n: NonSigner) returns (log: seq<Delivery>)
    ensures DistinctNonSigners(OneMissChain(n)) && IndexedThrough(log, 2)
    ensures CounterRead(Replay(NonSignerFeed(OneMissChain(n)), log), Missed, Hex(n.address), 2) == n.counter
    ensures MissedIs(OneMissChain(n), 2, n.address, 0)
  {
    log := [Delivery(1, true), Delivery(2, false)];
    assert log[0] in log && log[1] in log;
    OneMissDistinct(n);
    NonSignerKeysDistinct(OneMissChain(n));
    MissedIsCounter(OneMissChain(n), 1, n.address);
    MissedIsCounter(OneMissChain(n), 2, n.address);
    assert MissedIs(OneMissChain(n), 1, n.address, n.counter);
    OneMissGone(n);
    MissedSound();
    ListedThenGone(NonSignerHistory(OneMissChain(n)), MissedMoved, Missed, NonSignerRow(0), log, Hex(n.address));
  }

  lemma MissedSound()
    ensures Sound(MissedMoved, Missed, NonSignerRow(0))
  {
  }

  // ================================================================ double-sign evidence

  datatype DoubleSignerRow = DoubleSignerRow(evidenceCount: nat, firstEvidenceHeight: U64, lastEvidenceHeight: U64)

  function ToDoubleSignerRow(d: DoubleSigner): DoubleSignerRow {
    if d.heights == [] then DoubleSignerRow(0, 0, 0)
    else DoubleSignerRow(|d.heights|, d.heights[0], d.heights[|d.heights| - 1])
  }

  function DoubleSignerEntry(d: DoubleSigner): (string, DoubleSignerRow) { (Hex(d.id), ToDoubleSignerRow(d)) }

  function Evidence(r: DoubleSignerRow): nat { r.evidenceCount }

  /** A count is written when it differs from the count before, which is zero where there was none. */
  predicate EvidenceMoved(cur: DoubleSignerRow, prev: Option<DoubleSignerRow>) {
    cur.evidenceCount != match prev case None => 0 case Some(p) => p.evidenceCount
  }

  method CountEvidence(list: seq<DoubleSigner>) returns (m: map<string, nat>)
    ensures Mirrors(Collect(Map(DoubleSignerEntry, list)), m, Evidence)
  {
    m := map[];
    for i := 0 to |list|
      invariant Mirrors(Collect(Map(DoubleSignerEntry, list[..i])), m, Evidence)
    {
      MapStep(DoubleSignerEntry, list, i);
      m := m[Hex(list[i].id) := |list[i].heights|];
    }
    assert list[..|list|] == list;
  }

  method IndexDoubleSigners(list: seq<DoubleSigner>) returns (m: map<string, DoubleSigner>)
    ensures Mirrors(m, Collect(Map(DoubleSignerEntry, list)), ToDoubleSignerRow)
  {
    m := map[];
    for i := 0 to |list|
      invariant Mirrors(m, Collect(Map(DoubleSignerEntry, list[..i])), ToDoubleSignerRow)
    {
      IndexStep(m, DoubleSignerEntry, ToDoubleSignerRow, list, i);
      m := m[Hex(list[i].id) := list[i]];
    }
    assert list[..|list|] == list;
  }

  method UpdateDoubleSigners(current: seq<DoubleSigner>, prevCountMap: map<string, nat>, ghost before: map<string, DoubleSignerRow>)
    returns (results: seq<(string, DoubleSignerRow)>)
    requires Mirrors(before, prevCountMap, Evidence)
    ensures results == Updates(Map(DoubleSignerEntry, current), before, EvidenceMoved)
  {
    results := [];
    for i := 0 to |current|
      invariant results == Updates(Map(DoubleSignerEntry, current[..i]), before, EvidenceMoved)
    {
      var curr := current[i];
      var address := Hex(curr.id);
      var currentCount := |curr.heights|;
      var prevCount := if address in prevCountMap then prevCountMap[address] else 0;
      MapStep(DoubleSignerEntry, current, i);
      UpdatesSnoc(Map(DoubleSignerEntry, current[..i]), DoubleSignerEntry(curr), before, EvidenceMoved);
      if currentCount != prevCount {
        var firstHeight, lastHeight: U64 := 0, 0;
        if |curr.heights| > 0 {
          firstHeight, lastHeight := curr.heights[0], curr.heights[|curr.heights| - 1];
        }
        results := results + [(address, DoubleSignerRow(currentCount, firstHeight, lastHeight))];
      }
    }
    assert current[..|current|] == current;
  }

  method ClearDoubleSigners(previous: seq<DoubleSigner>, currMap: map<string, DoubleSigner>, ghost now: map<string, DoubleSignerRow>)
    returns (results: seq<(string, DoubleSignerRow)>)
    requires Mirrors(currMap, now, ToDoubleSignerRow)
    ensures results == Clears(Map(DoubleSignerEntry, previous), now, DoubleSignerRow(0, 0, 0))
  {
    results := [];
    for i := 0 to |previous|
      invariant results == Clears(Map(DoubleSignerEntry, previous[..i]), now, DoubleSignerRow(0, 0, 0))
    {
      var address := Hex(previous[i].id);
      MapStep(DoubleSignerEntry, previous, i);
      ClearsSnoc(Map(DoubleSignerEntry, previous[..i]), DoubleSignerEntry(previous[i]), now, DoubleSignerRow(0, 0, 0));
      if address !in currMap {
        results := results + [(address, DoubleSignerRow(0, 0, 0))];
      }
    }
    assert previous[..|previous|] == previous;
  }

  method ConvertDoubleSigners(current: seq<DoubleSigner>, previous: seq<DoubleSigner>) returns (results: seq<(string, DoubleSignerRow)>)
    ensures results == TwoPhase(Map(DoubleSignerEntry, current), Map(DoubleSignerEntry, previous), EvidenceMoved, DoubleSignerRow(0, 0, 0))
  {
    var prevCountMap := CountEvidence(previous);
    var currMap := IndexDoubleSigners(current);
    var updates := UpdateDoubleSigners(current, prevCountMap, Collect(Map(DoubleSignerEntry, previous)));
    var clears := ClearDoubleSigners(previous, currMap, Collect(Map(DoubleSignerEntry, current)));
    results := updates + clears;
  }

  function DoubleSignerHistory(chain: Chain): nat -> seq<(string, DoubleSignerRow)> {
    (h: nat) => Map(DoubleSignerEntry, chain(h).doubleSigners)
  }

  ghost function DoubleSignerFeed(chain: Chain): Feed<string, DoubleSignerRow> {
    CounterFeed(DoubleSignerHistory(chain), EvidenceMoved, DoubleSignerRow(0, 0, 0))
  }

  ghost predicate DistinctDoubleSigners(chain: Chain) {
    forall h: nat, i, j :: 0 <= i < j < |chain(h).doubleSigners| ==> chain(h).doubleSigners[i].id != chain(h).doubleSigners[j].id
  }

  lemma DoubleSignerKeysDistinct(chain: Chain)
    requires DistinctDoubleSigners(chain)
    ensures DistinctHistory(DoubleSignerHistory(chain))
  {
    forall g: nat
      ensures DistinctKeys(DoubleSignerHistory(chain)(g))
    {
      forall i, j | 0 <= i < j < |chain(g).doubleSigners|
        ensures DoubleSignerEntry(chain(g).doubleSigners[i]).0 != DoubleSignerEntry(chain(g).doubleSigners[j]).0
      {
        HexInjective(chain(g).doubleSigners[i].id, chain(g).doubleSigners[j].id);
      }
      MapDistinct(DoubleSignerEntry, chain(g).doubleSigners);
    }
  }

  /** Listed now with another number of heights than before, which is none where it was not listed; or listed before and no longer. */
  ghost predicate EvidenceWritten(now: seq<DoubleSigner>, was: seq<DoubleSigner>, id: Bytes) {
    || (exists d :: d in now && d.id == id && (forall p :: p in was && p.id == id ==> |p.heights| != |d.heights|) &&
                    ((forall p :: p in was ==> p.id != id) ==> d.heights != []))
    || ((exists p :: p in was && p.id == id) && forall d :: d in now ==> d.id != id)
  }

  /** The columns of a row of evidence. */
  predicate ShowsEvidence(heights: seq<U64>, r: DoubleSignerRow) {
    && r.evidenceCount == |heights|
    && r.firstEvidenceHeight == (if heights == [] then 0 else heights[0])
    && r.lastEvidenceHeight == (if heights == [] then 0 else heights[|heights| - 1])
  }

  lemma DoubleSignerLookup(list: seq<DoubleSigner>, id: Bytes)
    requires DistinctKeys(Map(DoubleSignerEntry, list))
    ensures Hex(id) in Collect(Map(DoubleSignerEntry, list)) <==> exists d :: d in list && d.id == id
    ensures forall d :: d in list && d.id == id ==>
              var r := Lookup(Collect(Map(DoubleSignerEntry, list)), Hex(id));
              r.Some? && ShowsEvidence(d.heights, r.value)
  {
    ListLookup(DoubleSignerEntry, list, Hex(id));
    forall d: DoubleSigner ensures Hex(d.id) == Hex(id) <==> d.id == id {
      HexInjective(d.id, id);
    }
  }

  /** The map counts the evidence of an id as the list does. */
  ghost predicate CountsEvidence(c: map<string, DoubleSignerRow>, list: seq<DoubleSigner>, id: Bytes) {
    && (Hex(id) in c <==> exists d :: d in list && d.id == id)
    && forall d :: d in list && d.id == id ==> Hex(id) in c && c[Hex(id)].evidenceCount == |d.heights|
  }

  lemma EvidenceLookup(list: seq<DoubleSigner>, id: Bytes)
    requires DistinctKeys(Map(DoubleSignerEntry, list))
    ensures CountsEvidence(Collect(Map(DoubleSignerEntry, list)), list, id)
  {
    DoubleSignerLookup(list, id);
  }

  lemma EvidenceStillListed(now: seq<DoubleSigner>, was: seq<DoubleSigner>, cur: map<string, DoubleSignerRow>,
                            prev: map<string, DoubleSignerRow>, id: Bytes)
    requires CountsEvidence(cur, now, id) && CountsEvidence(prev, was, id) && Hex(id) in cur && Hex(id) in prev
    ensures EvidenceWritten(now, was, id) <==> cur[Hex(id)].evidenceCount != prev[Hex(id)].evidenceCount
  {
    var d, p :| d in now && d.id == id && p in was && p.id == id;
    assert |d.heights| != |p.heights| ==> forall q :: q in was && q.id == id ==> |q.heights| != |d.heights|;
  }

  lemma EvidenceNewlyListed(now: seq<DoubleSigner>, was: seq<DoubleSigner>, cur: map<string, DoubleSignerRow>,
                            prev: map<string, DoubleSignerRow>, id: Bytes)
    requires CountsEvidence(cur, now, id) && CountsEvidence(prev, was, id) && Hex(id) in cur && Hex(id) !in prev
    ensures EvidenceWritten(now, was, id) <==> cur[Hex(id)].evidenceCount != 0
  {
    var d :| d in now && d.id == id;
    assert forall p :: p in was ==> p.id != id;
  }

  lemma EvidenceWrittenMeans(now: seq<DoubleSigner>, was: seq<DoubleSigner>, id: Bytes)
    requires DistinctKeys(Map(DoubleSignerEntry, now)) && DistinctKeys(Map(DoubleSignerEntry, was))
    ensures CounterMoved(Map(DoubleSignerEntry, now), Map(DoubleSignerEntry, was), EvidenceMoved, Hex(id)) <==> EvidenceWritten(now, was, id)
  {
    var cur, prev := Collect(Map(DoubleSignerEntry, now)), Collect(Map(DoubleSignerEntry, was));
    EvidenceLookup(now, id);
    EvidenceLookup(was, id);
    if Hex(id) in cur {
      if Hex(id) in prev {
        EvidenceStillListed(now, was, cur, prev, id);
      } else {
        EvidenceNewlyListed(now, was, cur, prev, id);
      }
    }
  }

  /** When a block leaves a row for an id, and that the row holds its evidence, or none once it is not listed. */
  lemma EvidenceRowAt(chain: Chain, log: seq<Delivery>, m: nat, id: Bytes)
    requires DistinctDoubleSigners(chain)
    ensures var t, k := Replay(DoubleSignerFeed(chain), log), (Hex(id), m);
            && (k in t <==> WrittenWith(log, m, EvidenceWritten(chain(m).doubleSigners, [], id),
                                        m > 0 && EvidenceWritten(chain(m).doubleSigners, chain(m - 1).doubleSigners, id)))
            && (k in t ==> forall d :: d in chain(m).doubleSigners && d.id == id ==> ShowsEvidence(d.heights, t[k]))
            && (k in t && (forall d :: d in chain(m).doubleSigners ==> d.id != id) ==> ShowsEvidence([], t[k]))
  {
    var history := DoubleSignerHistory(chain);
    DoubleSignerKeysDistinct(chain);
    CounterRowAt(history, EvidenceMoved, DoubleSignerRow(0, 0, 0), log, Hex(id), m);
    assert DistinctKeys(history(m)) && Map(DoubleSignerEntry, []) == [];
    DoubleSignerLookup(chain(m).doubleSigners, id);
    EvidenceWrittenMeans(chain(m).doubleSigners, [], id);
    if m > 0 {
      assert DistinctKeys(history(m - 1));
      EvidenceWrittenMeans(chain(m).doubleSigners, chain(m - 1).doubleSigners, id);
    }
  }

  /** The chain's evidence of an id at h: as many as the heights listed with it, or none where it is not listed. */
  ghost predicate EvidenceIs(chain: Chain, h: nat, id: Bytes, count: nat) {
    && (forall d :: d in chain(h).doubleSigners && d.id == id ==> count == |d.heights|)
    && ((forall d :: d in chain(h).doubleSigners ==> d.id != id) ==> count == 0)
  }

  /** What the count columns are compared with is that number. */
  lemma EvidenceIsCount(chain: Chain, h: nat, id: Bytes)
    requires DistinctDoubleSigners(chain)
    ensures forall count :: EvidenceIs(chain, h, id, count) <==> count == CounterAt(DoubleSignerHistory(chain), Evidence, Hex(id), h)
  {
    DoubleSignerKeysDistinct(chain);
    assert DistinctKeys(DoubleSignerHistory(chain)(h));
    EvidenceLookup(chain(h).doubleSigners, id);
  }

  lemma EvidenceSound()
    ensures Sound(EvidenceMoved, Evidence, DoubleSignerRow(0, 0, 0))
  {
  }

  /** The table left by the log reads that as of i. */
  ghost predicate EvidenceReads(chain: Chain, log: seq<Delivery>, id: Bytes, i: nat) {
    EvidenceIs(chain, i, id, CounterRead(Replay(DoubleSignerFeed(chain), log), Evidence, Hex(id), i))
  }

  lemma EvidenceSettled(chain: Chain, log: seq<Delivery>, i: nat, id: Bytes)
    requires DistinctDoubleSigners(chain)
    ensures Settled(DoubleSignerHistory(chain), EvidenceMoved, Evidence, DoubleSignerRow(0, 0, 0), log, Hex(id), i) <==>
            EvidenceReads(chain, log, id, i)
  {
    EvidenceIsCount(chain, i, id);
  }

  /** At every height from 1 to h, the evidence count of any id reads as the chain has it, or zero where it has none. */
  lemma EvidenceReconstructs(chain: Chain, log: seq<Delivery>, h: nat, id: Bytes)
    requires DistinctDoubleSigners(chain) && IndexedThrough(log, h)
    ensures (forall i :: 1 <= i <= h ==> EvidenceReads(chain, log, id, i)) <==>
            EveryChangeSeen(DoubleSignerHistory(chain), EvidenceMoved, Evidence, log, Hex(id), h)
  {
    var history := DoubleSignerHistory(chain);
    DoubleSignerKeysDistinct(chain);
    EvidenceSound();
    CountersReconstruct(history, EvidenceMoved, Evidence, DoubleSignerRow(0, 0, 0), log, Hex(id), h);
    if EveryChangeSeen(history, EvidenceMoved, Evidence, log, Hex(id), h) {
      forall i: nat | 1 <= i <= h ensures EvidenceReads(chain, log, id, i) {
        EvidenceSettled(chain, log, i, id);
      }
    } else {
      var i: nat :| 1 <= i <= h && !Settled(history, EvidenceMoved, Evidence, DoubleSignerRow(0, 0, 0), log, Hex(id), i);
      EvidenceSettled(chain, log, i, id);
    }
  }
}
