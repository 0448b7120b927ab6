/** Deleting blocks by height, and indexing them again. */
module Deletes {
  import opened Tables
  import opened ChangeDetection
  import opened Chain
  import opened Snapshots
  import opened Liquidity
  import opened Prices
  import opened Validators
  import opened SigningInfo
  import opened Dex
  import opened Store
  import opened Indexing

  // ================================================================ one table

  /** The rows outside [from, to]. */
  function DropHeights<K, V>(t: Table<K, V>, from: nat, to: nat): Table<K, V> {
    map r | r in t && !(from <= r.1 <= to) :: t[r]
  }

  /** One height after the other, in the order of the list. */
  function DropEach<K, V>(t: Table<K, V>, heights: seq<nat>): Table<K, V> {
    if heights == [] then t
    else
      var h := heights[|heights| - 1];
      DropHeights(DropEach(t, heights[..|heights| - 1]), h, h)
  }

  lemma {:induction false} DropEachKeeps<K, V>(t: Table<K, V>, heights: seq<nat>, r: (K, nat))
    ensures r in DropEach(t, heights) <==> r in t && r.1 !in heights
    ensures r in DropEach(t, heights) ==> DropEach(t, heights)[r] == t[r]
  {
    if heights != [] {
      DropEachKeeps(t, heights[..|heights| - 1], r);
    }
  }

  /** Deleting a range is deleting its heights one by one, in any order and even repeatedly. */
  lemma RangeIsEachHeight<K(!new), V>(t: Table<K, V>, from: nat, to: nat, heights: seq<nat>)
    requires forall h :: h in heights <==> from <= h <= to
    ensures DropEach(t, heights) == DropHeights(t, from, to)
  {
    var a, b := DropEach(t, heights), DropHeights(t, from, to);
    forall k, h: nat
      ensures (k, h) in a <==> (k, h) in b
      ensures (k, h) in a && (k, h) in b ==> a[(k, h)] == b[(k, h)]
    {
      DropEachKeeps(t, heights, (k, h));
    }
    assert forall r :: r in a ==> (r.0, r.1) in b && b[(r.0, r.1)] == a[r];
    assert forall r :: r in b ==> (r.0, r.1) in a;
  }

  // ================================================================ a log without some heights

  /** The deliveries of heights outside [from, to]. */
  function Outside(log: seq<Delivery>, from: nat, to: nat): seq<Delivery> {
    if log == [] then []
    else
      var d := log[|log| - 1];
      Outside(log[..|log| - 1], from, to) + if from <= d.height <= to then [] else [d]
  }

  lemma {:induction false} OutsideMember(log: seq<Delivery>, from: nat, to: nat, d: Delivery)
    ensures d in Outside(log, from, to) <==> d in log && !(from <= d.height <= to)
  {
    if log != [] {
      OutsideMember(log[..|log| - 1], from, to, d);
      assert d in log <==> d in log[..|log| - 1] || d == log[|log| - 1];
    }
  }

  lemma DropUpsertInside<K, V>(t: Table<K, V>, h: nat, batch: seq<(K, V)>, from: nat, to: nat)
    requires from <= h <= to
    ensures DropHeights(Upsert(t, h, batch), from, to) == DropHeights(t, from, to)
  {
    var u := Upsert(t, h, batch);
    forall r: (K, nat) | !(from <= r.1 <= to)
      ensures r in u <==> r in t
      ensures r in u ==> u[r] == t[r]
    {
      UpsertRow(t, h, batch, r.0, r.1);
    }
  }

  lemma DropUpsertOutside<K, V>(t: Table<K, V>, h: nat, batch: seq<(K, V)>, from: nat, to: nat)
    requires !(from <= h <= to)
    ensures DropHeights(Upsert(t, h, batch), from, to) == Upsert(DropHeights(t, from, to), h, batch)
  {
    var a, b := DropHeights(Upsert(t, h, batch), from, to), Upsert(DropHeights(t, from, to), h, batch);
    forall r: (K, nat)
      ensures r in a <==> r in b
      ensures r in a ==> a[r] == b[r]
    {
      UpsertRow(t, h, batch, r.0, r.1);
      UpsertRow(DropHeights(t, from, to), h, batch, r.0, r.1);
    }
  }

  /** After a delete, a table is what it would be had the deleted heights never been committed. */
  lemma {:induction false} DeleteUndoesCommits<K, V>(feed: Feed<K, V>, log: seq<Delivery>, from: nat, to: nat)
    ensures DropHeights(Replay(feed, log), from, to) == Replay(feed, Outside(log, from, to))
  {
    if log != [] {
      var rest, d := log[..|log| - 1], log[|log| - 1];
      DeleteUndoesCommits(feed, rest, from, to);
      if from <= d.height <= to {
        DropUpsertInside(Replay(feed, rest), d.height, feed(d), from, to);
        assert Outside(log, from, to) == Outside(rest, from, to);
      } else {
        DropUpsertOutside(Replay(feed, rest), d.height, feed(d), from, to);
        ReplaySnoc(feed, Outside(rest, from, to), d);
      }
    }
  }

  lemma OutsideAndAgain(log: seq<Delivery>, from: nat, to: nat, again: seq<Delivery>)
    requires forall d :: d in again <==> d in log && from <= d.height <= to
    ensures SameDeliveries(log, Outside(log, from, to) + again)
  {
    forall d: Delivery
      ensures d in log <==> d in Outside(log, from, to) + again
    {
      OutsideMember(log, from, to, d);
    }
  }

  /** The round trip of one table: delete a range, index its blocks again with the same data, in any order. */
  lemma ReindexRestores<K(!new), V>(feed: Feed<K, V>, log: seq<Delivery>, from: nat, to: nat, again: seq<Delivery>)
    requires Agree(feed, log)
    requires forall d :: d in again <==> d in log && from <= d.height <= to
    ensures Replay(feed, Outside(log, from, to) + again) == Replay(feed, log)
  {
    OutsideAndAgain(log, from, to, again);
    OrderIndependence(feed, log, Outside(log, from, to) + again);
  }

  // ================================================================ the whole database

  ghost function DropAll(t: TableSet, from: nat, to: nat): TableSet {
    TableSet(DropHeights(t.accounts, from, to), DropHeights(t.validators, from, to), DropHeights(t.nonSigning, from, to),
             DropHeights(t.doubleSigning, from, to), DropHeights(t.pools, from, to), DropHeights(t.orders, from, to),
             DropHeights(t.dexPrices, from, to), DropHeights(t.dexOrders, from, to), DropHeights(t.dexDeposits, from, to),
             DropHeights(t.dexWithdrawals, from, to), DropHeights(t.holders, from, to), DropHeights(t.supply, from, to),
             DropHeights(t.committees, from, to), DropHeights(t.members, from, to))
  }

  lemma DatabaseDeleteUndoesCommits(chain: Chain, log: seq<Delivery>, from: nat, to: nat)
    ensures DropAll(ReplayAll(chain, log), from, to) == ReplayAll(chain, Outside(log, from, to))
  {
    DeleteUndoesCommits(AccountFeed(chain), log, from, to);
    DeleteUndoesCommits(ValidatorFeed(chain), log, from, to);
    DeleteUndoesCommits(NonSignerFeed(chain), log, from, to);
    DeleteUndoesCommits(DoubleSignerFeed(chain), log, from, to);
    DeleteUndoesCommits(PoolFeed(chain), log, from, to);
    DeleteUndoesCommits(OrderFeed(chain), log, from, to);
    DeleteUndoesCommits(PriceFeed(chain), log, from, to);
    DeleteUndoesCommits(DexFeed(OrderView(chain)), log, from, to);
    DeleteUndoesCommits(DexFeed(DepositView(chain)), log, from, to);
    DeleteUndoesCommits(DexFeed(WithdrawalView(chain)), log, from, to);
    DeleteUndoesCommits(HolderFeed(chain), log, from, to);
    DeleteUndoesCommits(SupplyFeed(chain), log, from, to);
    DeleteUndoesCommits(CommitteeFeed(chain), log, from, to);
    DeleteUndoesCommits(MemberFeed(chain), log, from, to);
  }

  /**
   The chain's own blocks left after a delete are the ones outside the range: the rest is missing there again, and
   the write path would index it again. The listed heights that the backfill looks at are not among them: those are
   rows of the global table, which no delete reaches.
   */
  lemma DeletedIsMissing(log: seq<Delivery>, from: nat, to: nat, h: nat)
    ensures h in Heights(Outside(log, from, to)) <==> h in Heights(log) && !(from <= h <= to)
  {
    forall d: Delivery
      ensures d in Outside(log, from, to) <==> d in log && !(from <= d.height <= to)
    {
      OutsideMember(log, from, to, d);
    }
    if h in Heights(log) && !(from <= h <= to) {
      var d :| d in log && d.height == h;
      assert d in Outside(log, from, to);
    }
  }

  /**
   The round trip of the whole database: delete a range of a database that a log of commits left, then
   commit the blocks of the range again in any order. Every table is what it was, but for delta columns;
   those too when no height came in two ways.
   */
  lemma DeleteAndReindex(chain: Chain, log: seq<Delivery>, from: nat, to: nat, again: seq<Delivery>)
    requires forall d :: d in again <==> d in log && from <= d.height <= to
    ensures var t := CommitAll(CommitBlock(chain), EMPTY, log);
            var u := CommitAll(CommitBlock(chain), DropAll(t, from, to), again);
            && (WellFormed(chain) && ExclusiveDex(chain) ==> SameButDeltas(t, u))
            && (Uniform(log) ==> t == u)
  {
    CommitAllIsReplay(chain, log);
    DatabaseDeleteUndoesCommits(chain, log, from, to);
    var outside := Outside(log, from, to);
    CommitAllIsReplay(chain, outside);
    CommitAllConcat(CommitBlock(chain), EMPTY, outside, again);
    CommitAllIsReplay(chain, outside + again);
    OutsideAndAgain(log, from, to, again);
    if WellFormed(chain) && ExclusiveDex(chain) {
      DatabaseOrderIndependent(chain, log, outside + again);
    }
    if Uniform(log) {
      UniformOrderIndependent(chain, log, outside + again);
    }
  }

  lemma {:induction false} CommitAllConcat<S>(commit: Transaction<S>, empty: S, first: seq<Delivery>, later: seq<Delivery>)
    ensures CommitAll(commit, empty, first + later) == CommitAll(commit, CommitAll(commit, empty, first), later)
  {
    if later == [] {
      assert first + later == first;
    } else {
      var n := |later| - 1;
      CommitAllConcat(commit, empty, first, later[..n]);
      assert (first + later)[..|first + later| - 1] == first + later[..n];
    }
  }

  // ================================================================ the statements

  /** The table that each step of DeleteAllAtHeight deletes from. */
  const AT_HEIGHT := ["events", "txs", "accounts", "validators", "validator_non_signing_info", "validator_double_signing_info",
                      "pools", "pool_points_by_holder", "orders", "dex_orders", "dex_deposits", "dex_withdrawals", "dex_prices",
                      "committees", "committee_validators", "committee_payments", "params", "supply", "block_summaries", "blocks"]

  /** The tables that DeleteBlockRange names. */
  const IN_RANGE := ["events", "txs", "accounts", "validators", "validator_non_signing_info", "validator_double_signing_info",
                     "pools", "pool_points_by_holder", "orders", "dex_orders", "dex_deposits", "dex_withdrawals", "dex_prices",
                     "committees", "committee_validators", "committee_payments", "params", "supply", "block_summaries", "blocks"]

  /** Both name every table of a chain that holds rows by height, and nothing else. */
  lemma TablesByName()
    ensures AT_HEIGHT == IN_RANGE
    ensures forall name :: name in IN_RANGE <==>
              name in {"events", "txs", "blocks", "block_summaries", "params", "supply", "accounts", "orders", "pools",
                       "pool_points_by_holder", "validators", "validator_non_signing_info", "validator_double_signing_info",
                       "committees", "committee_validators", "committee_payments", "dex_orders", "dex_deposits", "dex_withdrawals", "dex_prices"}
  {
  }

  /** A schema by table name, its rows keyed by entity key and height. */
  type Schema<K, V> = map<string, Table<K, V>>

  ghost predicate Dropped<K, V>(before: Schema<K, V>, after: Schema<K, V>, names: seq<string>, from: nat, to: nat) {
    && after.Keys == before.Keys
    && forall name :: name in before ==>
         after[name] == if name in names then DropHeights(before[name], from, to) else before[name]
  }

  class ChainSchema<K(==), V> {
    var tables: Schema<K, V>

    constructor (tables: Schema<K, V>)
      ensures this.tables == tables
    {
      this.tables := tables;
    }

    /** One statement after the other inside a transaction; a failing one rolls everything back. */
    method DeleteFrom(names: seq<string>, from: nat, to: nat, fails: string -> bool) returns (ok: bool)
      modifies this
      ensures ok <==> forall name :: name in names ==> name in old(tables) && !fails(name)
      ensures ok ==> Dropped(old(tables), tables, names, from, to)
      ensures !ok ==> tables == old(tables)
    {
      var saved := tables;
      for i := 0 to |names|
        invariant Dropped(saved, tables, names[..i], from, to)
        invariant forall name :: name in names[..i] ==> name in saved && !fails(name)
      {
        var name := names[i];
        if name !in tables || fails(name) {
          tables := saved;
          return false;
        }
        ghost var t := tables;
        tables := tables[name := DropHeights(tables[name], from, to)];
        DroppedStep(saved, t, names, i, from, to);
      }
      assert names[..|names|] == names;
      ok := true;
    }

    method DeleteAllAtHeight(height: nat, fails: string -> bool) returns (ok: bool)
      modifies this
      ensures ok <==> forall name :: name in AT_HEIGHT ==> name in old(tables) && !fails(name)
      ensures ok ==> Dropped(old(tables), tables, AT_HEIGHT, height, height)
      ensures !ok ==> tables == old(tables)
    {
      ok := DeleteFrom(AT_HEIGHT, height, height, fails);
    }

    method DeleteBlockRange(from: nat, to: nat, fails: string -> bool) returns (ok: bool)
      modifies this
      ensures ok <==> from <= to && forall name :: name in IN_RANGE ==> name in old(tables) && !fails(name)
      ensures ok ==> Dropped(old(tables), tables, IN_RANGE, from, to)
      ensures !ok ==> tables == old(tables)
    {
      if from > to {
        return false;
      }
      ok := DeleteFrom(IN_RANGE, from, to, fails);
    }
  }

  lemma DropTwice<K, V>(t: Table<K, V>, from: nat, to: nat)
    ensures DropHeights(DropHeights(t, from, to), from, to) == DropHeights(t, from, to)
  {
  }

  lemma DroppedStep<K, V>(before: Schema<K, V>, t: Schema<K, V>, names: seq<string>, i: nat, from: nat, to: nat)
    requires i < |names| && names[i] in t && Dropped(before, t, names[..i], from, to)
    ensures Dropped(before, t[names[i] := DropHeights(t[names[i]], from, to)], names[..i + 1], from, to)
  {
    assert forall name :: name in names[..i + 1] <==> name in names[..i] || name == names[i];
    DropTwice(before[names[i]], from, to);
  }

  /** Deleting a range is deleting every height of it, in any order, from a schema of any tables. */
  lemma {:induction false} RangeIsEveryHeight<K(!new), V>(states: seq<Schema<K, V>>, heights: seq<nat>, from: nat, to: nat, after: Schema<K, V>)
    requires |states| == |heights| + 1
    requires forall i :: 0 <= i < |heights| ==> Dropped(states[i], states[i + 1], AT_HEIGHT, heights[i], heights[i])
    requires forall h :: h in heights <==> from <= h <= to
    requires Dropped(states[0], after, IN_RANGE, from, to)
    ensures states[|heights|] == after
  {
    TablesByName();
    forall name | name in states[0]
      ensures name in states[|heights|] && states[|heights|][name] == after[name]
    {
      DroppedEach(states, heights, name, |heights|);
      assert heights[..|heights|] == heights;
      RangeIsEachHeight(states[0][name], from, to, heights);
    }
    KeysKept(states, heights, |heights|);
  }

  lemma {:induction false} KeysKept<K, V>(states: seq<Schema<K, V>>, heights: seq<nat>, n: nat)
    requires |states| == |heights| + 1 && n <= |heights|
    requires forall i :: 0 <= i < |heights| ==> Dropped(states[i], states[i + 1], AT_HEIGHT, heights[i], heights[i])
    ensures states[n].Keys == states[0].Keys
  {
    if n > 0 {
      KeysKept(states, heights, n - 1);
      assert Dropped(states[n - 1], states[n - 1 + 1], AT_HEIGHT, heights[n - 1], heights[n - 1]);
    }
  }

  lemma {:induction false} DroppedEach<K, V>(states: seq<Schema<K, V>>, heights: seq<nat>, name: string, n: nat)
    requires |states| == |heights| + 1 && n <= |heights| && name in states[0]
    requires forall i :: 0 <= i < |heights| ==> Dropped(states[i], states[i + 1], AT_HEIGHT, heights[i], heights[i])
    ensures name in states[n]
    ensures states[n][name] == if name in AT_HEIGHT then DropEach(states[0][name], heights[..n]) else states[0][name]
  {
    if n > 0 {
      DroppedEach(states, heights, name, n - 1);
      assert Dropped(states[n - 1], states[n - 1 + 1], AT_HEIGHT, heights[n - 1], heights[n - 1]);
      assert heights[..n][..n - 1] == heights[..n - 1];
    }
  }

  // ================================================================ the schema that holds the database

  /** Key and row columns of the change-detected tables. */
  datatype AnyKey = Text(t0: string) | Number(n1: nat) | OfPair(o2: Pair) | OfHolder(o3: (string, nat)) | OfMember(o4: (nat, string)) | Nothing

  datatype AnyRow =
    | OfAccount(r0: AccountRow)
    | OfValidator(r1: ValidatorRow)
    | OfNonSigner(r2: NonSignerRow)
    | OfDoubleSigner(r3: DoubleSignerRow)
    | OfPool(r4: PoolRow)
    | OfOrder(r5: OrderRow)
    | OfPrice(r6: PriceRow)
    | OfDexOrder(r7: DexRow<OrderTerms, SwapOutcome>)
    | OfDeposit(r8: DexRow<U64, DepositOutcome>)
    | OfWithdrawal(r9: DexRow<U64, WithdrawalOutcome>)
    | OfPoints(r10: HolderRow)
    | OfSupply(r11: SupplyRow)
    | OfCommittee(r12: CommitteeRow)
    | OfMembership(r13: MemberRow)

  /** The same rows under the same keys. */
  ghost predicate Represents<A(!new), B, K(!new), V>(t: Table<A, B>, u: Table<K, V>, key: A -> K, row: B -> V) {
    && (forall a, h: nat :: (a, h) in t <==> (key(a), h) in u)
    && (forall a, h: nat :: (a, h) in t && (key(a), h) in u ==> u[(key(a), h)] == row(t[(a, h)]))
    && (forall k, h: nat :: (k, h) in u ==> exists a :: key(a) == k && (a, h) in t)
  }

  ghost predicate Holds<A(!new), B>(s: Schema<AnyKey, AnyRow>, name: string, t: Table<A, B>, key: A -> AnyKey, row: B -> AnyRow) {
    name in s && Represents(t, s[name], key, row)
  }

  lemma DropRepresents<A(!new), B, K(!new), V>(t: Table<A, B>, u: Table<K, V>, key: A -> K, row: B -> V, from: nat, to: nat)
    requires Represents(t, u, key, row)
    ensures Represents(DropHeights(t, from, to), DropHeights(u, from, to), key, row)
  {
    forall k, h: nat | (k, h) in DropHeights(u, from, to)
      ensures exists a :: key(a) == k && (a, h) in DropHeights(t, from, to)
    {
      assert (k, h) in u;
      var a :| key(a) == k && (a, h) in t;
    }
  }

  lemma DropHolds<A(!new), B>(before: Schema<AnyKey, AnyRow>, after: Schema<AnyKey, AnyRow>, name: string, t: Table<A, B>,
                              key: A -> AnyKey, row: B -> AnyRow, from: nat, to: nat)
    requires Holds(before, name, t, key, row) && Dropped(before, after, IN_RANGE, from, to) && name in IN_RANGE
    ensures Holds(after, name, DropHeights(t, from, to), key, row)
  {
    DropRepresents(t, before[name], key, row, from, to);
  }

  /** The schema's tables hold the database, each under its own name. */
  ghost predicate Stores(s: Schema<AnyKey, AnyRow>, t: TableSet) {
    && Holds(s, "accounts", t.accounts, (k: string) => Text(k), (r: AccountRow) => OfAccount(r))
    && Holds(s, "validators", t.validators, (k: string) => Text(k), (r: ValidatorRow) => OfValidator(r))
    && Holds(s, "validator_non_signing_info", t.nonSigning, (k: string) => Text(k), (r: NonSignerRow) => OfNonSigner(r))
    && Holds(s, "validator_double_signing_info", t.doubleSigning, (k: string) => Text(k), (r: DoubleSignerRow) => OfDoubleSigner(r))
    && Holds(s, "pools", t.pools, (k: nat) => Number(k), (r: PoolRow) => OfPool(r))
    && Holds(s, "orders", t.orders, (k: string) => Text(k), (r: OrderRow) => OfOrder(r))
    && Holds(s, "dex_prices", t.dexPrices, (k: Pair) => OfPair(k), (r: PriceRow) => OfPrice(r))
    && Holds(s, "dex_orders", t.dexOrders, (k: string) => Text(k), (r: DexRow<OrderTerms, SwapOutcome>) => OfDexOrder(r))
    && Holds(s, "dex_deposits", t.dexDeposits, (k: string) => Text(k), (r: DexRow<U64, DepositOutcome>) => OfDeposit(r))
    && Holds(s, "dex_withdrawals", t.dexWithdrawals, (k: string) => Text(k), (r: DexRow<U64, WithdrawalOutcome>) => OfWithdrawal(r))
    && Holds(s, "pool_points_by_holder", t.holders, (k: (string, nat)) => OfHolder(k), (r: HolderRow) => OfPoints(r))
    && Holds(s, "supply", t.supply, (k: ()) => Nothing, (r: SupplyRow) => OfSupply(r))
    && Holds(s, "committees", t.committees, (k: nat) => Number(k), (r: CommitteeRow) => OfCommittee(r))
    && Holds(s, "committee_validators", t.members, (k: (nat, string)) => OfMember(k), (r: MemberRow) => OfMembership(r))
  }

  /** Deleting a range by the statements is deleting it from the database that the round trip speaks of. */
  lemma StatementsDropAll(before: Schema<AnyKey, AnyRow>, after: Schema<AnyKey, AnyRow>, t: TableSet, from: nat, to: nat)
    requires Stores(before, t) && Dropped(before, after, IN_RANGE, from, to)
    ensures Stores(after, DropAll(t, from, to))
  {
    TablesByName();
    DropHolds(before, after, "accounts", t.accounts, (k: string) => Text(k), (r: AccountRow) => OfAccount(r), from, to);
    DropHolds(before, after, "validators", t.validators, (k: string) => Text(k), (r: ValidatorRow) => OfValidator(r), from, to);
    DropHolds(before, after, "validator_non_signing_info", t.nonSigning, (k: string) => Text(k), (r: NonSignerRow) => OfNonSigner(r), from, to);
    DropHolds(before, after, "validator_double_signing_info", t.doubleSigning, (k: string) => Text(k), (r: DoubleSignerRow) => OfDoubleSigner(r), from, to);
    DropHolds(before, after, "pools", t.pools, (k: nat) => Number(k), (r: PoolRow) => OfPool(r), from, to);
    DropHolds(before, after, "orders", t.orders, (k: string) => Text(k), (r: OrderRow) => OfOrder(r), from, to);
    DropHolds(before, after, "dex_prices", t.dexPrices, (k: Pair) => OfPair(k), (r: PriceRow) => OfPrice(r), from, to);
    DropHolds(before, after, "dex_orders", t.dexOrders, (k: string) => Text(k), (r: DexRow<OrderTerms, SwapOutcome>) => OfDexOrder(r), from, to);
    DropHolds(before, after, "dex_deposits", t.dexDeposits, (k: string) => Text(k), (r: DexRow<U64, DepositOutcome>) => OfDeposit(r), from, to);
    DropHolds(before, after, "dex_withdrawals", t.dexWithdrawals, (k: string) => Text(k), (r: DexRow<U64, WithdrawalOutcome>) => OfWithdrawal(r), from, to);
    DropHolds(before, after, "pool_points_by_holder", t.holders, (k: (string, nat)) => OfHolder(k), (r: HolderRow) => OfPoints(r), from, to);
    DropHolds(before, after, "supply", t.supply, (k: ()) => Nothing, (r: SupplyRow) => OfSupply(r), from, to);
    DropHolds(before, after, "committees", t.committees, (k: nat) => Number(k), (r: CommitteeRow) => OfCommittee(r), from, to);
    DropHolds(before, after, "committee_validators", t.members, (k: (nat, string)) => OfMember(k), (r: MemberRow) => OfMembership(r), from, to);
  }
}
