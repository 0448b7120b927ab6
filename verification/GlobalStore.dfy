/** One chain's rows in the global tables: the tables that have a trigger, and what it leaves of the chain's state. */
module GlobalStore {
  import opened Encoding
  import opened Tables
  import opened ChangeDetection
  import opened Chain
  import opened Deltas
  import opened Snapshots
  import opened Liquidity
  import opened Validators
  import opened SigningInfo
  import opened Dex
  import opened Store
  import opened Triggers

  /** The change-detected tables that are mirrored. Prices, supply, committees and members are not. */
  datatype Globals = Globals(
    accounts: Table<string, AccountRow>,
    validators: Table<string, ValidatorRow>,
    nonSigning: Table<string, NonSignerRow>,
    doubleSigning: Table<string, DoubleSignerRow>,
    pools: Table<nat, PoolRow>,
    orders: Table<string, OrderRow>,
    dexOrders: Table<string, DexRow<OrderTerms, SwapOutcome>>,
    dexDeposits: Table<string, DexRow<U64, DepositOutcome>>,
    dexWithdrawals: Table<string, DexRow<U64, WithdrawalOutcome>>,
    holders: Table<(string, nat), HolderRow>)

  const NO_GLOBALS := Globals(map[], map[], map[], map[], map[], map[], map[], map[], map[], map[])

  /** What the triggers do while one block is written. */
  ghost function FireBlock(t: TableSet, g: Globals, r: BlockRows): Globals {
    Globals(Fire(t.accounts, g.accounts, r.height, r.accounts), Fire(t.validators, g.validators, r.height, r.validators),
            Fire(t.nonSigning, g.nonSigning, r.height, r.nonSigning),
            Fire(t.doubleSigning, g.doubleSigning, r.height, r.doubleSigning),
            Fire(t.pools, g.pools, r.height, r.pools), Fire(t.orders, g.orders, r.height, r.orders),
            Fire(t.dexOrders, g.dexOrders, r.height, r.dexOrders), Fire(t.dexDeposits, g.dexDeposits, r.height, r.dexDeposits),
            Fire(t.dexWithdrawals, g.dexWithdrawals, r.height, r.dexWithdrawals), Fire(t.holders, g.holders, r.height, r.holders))
  }

  /**
   The global rows of a chain after committing the deliveries of a log, when the triggers were installed, with
   no global rows, after those of an earlier one.
   */
  ghost function GlobalAll(chain: Chain, earlier: seq<Delivery>, log: seq<Delivery>): Globals {
    Globals(GlobalSince(AccountFeed(chain), earlier, log),
            GlobalSince(ValidatorFeed(chain), earlier, log),
            GlobalSince(NonSignerFeed(chain), earlier, log),
            GlobalSince(DoubleSignerFeed(chain), earlier, log),
            GlobalSince(PoolFeed(chain), earlier, log),
            GlobalSince(OrderFeed(chain), earlier, log),
            GlobalSince(DexFeed(OrderView(chain)), earlier, log),
            GlobalSince(DexFeed(DepositView(chain)), earlier, log),
            GlobalSince(DexFeed(WithdrawalView(chain)), earlier, log),
            GlobalSince(HolderFeed(chain), earlier, log))
  }

  lemma GlobalNothing(chain: Chain, earlier: seq<Delivery>)
    ensures GlobalAll(chain, earlier, []) == NO_GLOBALS
  {
  }

  /** The triggers of one more block extend the global rows to the longer log. */
  lemma FireExtendsGlobal(chain: Chain, earlier: seq<Delivery>, log: seq<Delivery>, d: Delivery)
    ensures FireBlock(ReplayAll(chain, earlier + log), GlobalAll(chain, earlier, log), RowsOf(chain, d)) ==
            GlobalAll(chain, earlier, log + [d])
  {
    GlobalSnoc(AccountFeed(chain), earlier, log, d);
    GlobalSnoc(ValidatorFeed(chain), earlier, log, d);
    GlobalSnoc(NonSignerFeed(chain), earlier, log, d);
    GlobalSnoc(DoubleSignerFeed(chain), earlier, log, d);
    GlobalSnoc(PoolFeed(chain), earlier, log, d);
    GlobalSnoc(OrderFeed(chain), earlier, log, d);
    GlobalSnoc(DexFeed(OrderView(chain)), earlier, log, d);
    GlobalSnoc(DexFeed(DepositView(chain)), earlier, log, d);
    GlobalSnoc(DexFeed(WithdrawalView(chain)), earlier, log, d);
    GlobalSnoc(HolderFeed(chain), earlier, log, d);
  }

  // ================================================================ the deliveries agree, table by table

  lemma AccountsAgreeOn(chain: Chain, log: seq<Delivery>, k: string)
    requires DistinctAccounts(chain)
    ensures AgreeOn(AccountFeed(chain), Whole(), log, k)
  {
    AccountKeysDistinct(chain);
    SnapshotAgreesOn(AccountHistory(chain), Never(), SameAccount, log, k);
  }

  lemma OrdersAgreeOn(chain: Chain, log: seq<Delivery>, k: string)
    requires DistinctOrders(chain)
    ensures AgreeOn(OrderFeed(chain), Whole(), log, k)
  {
    OrderKeysDistinct(chain);
    SnapshotAgreesOn(OrderHistory(chain), Never(), SameOrder, log, k);
  }

  lemma HoldersAgreeOn(chain: Chain, log: seq<Delivery>, k: (string, nat))
    requires PoolsWellFormed(chain) && DistinctHolders(chain)
    ensures AgreeOn(HolderFeed(chain), Whole(), log, k)
  {
    HolderHistoryDistinct(chain);
    HolderFeedIsSnapshot(chain);
    SnapshotAgreesOn(HolderHistory(chain), Never(), SameHolder, log, k);
    SameFeedAgreesOn(HolderFeed(chain), SnapshotFeed(HolderHistory(chain), Never(), SameHolder), Whole(), log, k);
  }

  lemma ValidatorsAgreeOn(chain: Chain, log: seq<Delivery>, k: string)
    requires ValidatorsWellFormed(chain)
    ensures AgreeOn(ValidatorFeed(chain), Whole(), log, k)
  {
    ValidatorKeysDistinct(chain);
    SnapshotAgreesOn(ValidatorHistory(chain), LifecycleForced(chain), SameValidator, log, k);
    WholeAgreesOn(TrackedFeed(chain), ValidatorColumns, log, k);
    ProjectAgreesOn(TrackedFeed(chain), ValidatorFeed(chain), ValidatorColumns, log, k);
  }

  /** Pool rows of one height may differ in their deltas, and agree in everything else. */
  lemma PoolsAgreeOn(chain: Chain, log: seq<Delivery>, k: nat)
    requires PoolsWellFormed(chain)
    ensures AgreeOn(PoolFeed(chain), PoolStateOf, log, k)
  {
    var history := PoolHistory(chain);
    var plain, full := SnapshotFeed(history, Never(), SamePool), DecoratedFeed(history, SamePool, WithPoolDeltas);
    PoolFeedIsDecorated(chain);
    PoolRowsKeepState();
    forall d: Delivery ensures plain(d) == Project(PoolStateOf, full(d)) {
      ProjectDecorated(WithPoolDeltas, PoolStateOf, plain(d), PreviousState(history, d));
    }
    SnapshotAgreesOn(history, Never(), SamePool, log, k);
    ProjectAgreesOn(full, plain, PoolStateOf, log, k);
    SameFeedAgreesOn(PoolFeed(chain), full, PoolStateOf, log, k);
  }

  lemma CountersAgreeOn<K, R>(entries: nat -> seq<(K, R)>, moved: (R, Option<R>) -> bool, zero: R, log: seq<Delivery>, k: K)
    requires DistinctHistory(entries)
    ensures AgreeOn(CounterFeed(entries, moved, zero), Whole(), log, k)
  {
    var feed := CounterFeed(entries, moved, zero);
    forall c: Delivery, d: Delivery | c.height == d.height ensures BatchesAgree(Whole(), k, feed(c), feed(d)) {
      forall x, y | x in feed(c) && y in feed(d) && x.0 == y.0 == k ensures x.1 == y.1 {
        TwoPhaseFrom(entries(d.height), PreviousEntries(entries, c), moved, zero, x);
        TwoPhaseFrom(entries(d.height), PreviousEntries(entries, d), moved, zero, y);
      }
    }
  }

  lemma DexAgreesOn<T, X>(view: View<T, X>, log: seq<Delivery>, id: string)
    requires DistinctView(view) && forall h: nat :: ExclusiveAt(view, id, h)
    ensures AgreeOn(DexFeed(view), Whole(), log, id)
  {
    var feed := DexFeed(view);
    forall c: Delivery, d: Delivery | c.height == d.height ensures BatchesAgree(Whole(), id, feed(c), feed(d)) {
      forall x, y | x in feed(c) && y in feed(d) && x.0 == y.0 == id ensures x.1 == y.1 {
        assert ExclusiveAt(view, id, d.height);
        OneStatement(view, c, x);
        OneStatement(view, d, y);
        SameHeightSameRow(view, id, c, d);
      }
    }
  }

  // ================================================================ order independence

  /** Equal global rows, but for the delta columns of pools. */
  ghost predicate SameGlobalsButDeltas(g: Globals, u: Globals) {
    && g.(pools := u.pools) == u
    && ProjectTable(PoolStateOf, g.pools) == ProjectTable(PoolStateOf, u.pools)
  }

  lemma WholeOrderIndependent<K(!new), V>(feed: Feed<K, V>, earlier: seq<Delivery>, log: seq<Delivery>,
                                          earlier': seq<Delivery>, log': seq<Delivery>)
    requires SameDeliveries(earlier, earlier') && SameDeliveries(log, log') && forall k :: AgreeOn(feed, Whole(), log, k)
    ensures GlobalSince(feed, earlier, log) == GlobalSince(feed, earlier', log')
  {
    GlobalOrderIndependent(feed, Whole(), earlier, log, earlier', log');
    ProjectWhole(GlobalSince(feed, earlier, log));
    ProjectWhole(GlobalSince(feed, earlier', log'));
  }

  lemma DexOrderIndependent<T, X>(view: View<T, X>, earlier: seq<Delivery>, log: seq<Delivery>,
                                  earlier': seq<Delivery>, log': seq<Delivery>)
    requires DistinctView(view) && ExclusiveView(view) && SameDeliveries(earlier, earlier') && SameDeliveries(log, log')
    ensures GlobalSince(DexFeed(view), earlier, log) == GlobalSince(DexFeed(view), earlier', log')
  {
    forall id: string ensures AgreeOn(DexFeed(view), Whole(), log, id) {
      DexAgreesOn(view, log, id);
    }
    WholeOrderIndependent(DexFeed(view), earlier, log, earlier', log');
  }

  lemma CountersOrderIndependent<K(!new), R>(entries: nat -> seq<(K, R)>, moved: (R, Option<R>) -> bool, zero: R, earlier: seq<Delivery>,
                                             log: seq<Delivery>, earlier': seq<Delivery>, log': seq<Delivery>)
    requires DistinctHistory(entries) && SameDeliveries(earlier, earlier') && SameDeliveries(log, log')
    ensures GlobalSince(CounterFeed(entries, moved, zero), earlier, log) == GlobalSince(CounterFeed(entries, moved, zero), earlier', log')
  {
    forall k ensures AgreeOn(CounterFeed(entries, moved, zero), Whole(), log, k) {
      CountersAgreeOn(entries, moved, zero, log, k);
    }
    WholeOrderIndependent(CounterFeed(entries, moved, zero), earlier, log, earlier', log');
  }

  lemma SnapshotsOrderIndependent(chain: Chain, earlier: seq<Delivery>, log: seq<Delivery>, earlier': seq<Delivery>, log': seq<Delivery>)
    requires WellFormed(chain) && SameDeliveries(earlier, earlier') && SameDeliveries(log, log')
    ensures GlobalSince(AccountFeed(chain), earlier, log) == GlobalSince(AccountFeed(chain), earlier', log')
    ensures GlobalSince(ValidatorFeed(chain), earlier, log) == GlobalSince(ValidatorFeed(chain), earlier', log')
    ensures GlobalSince(OrderFeed(chain), earlier, log) == GlobalSince(OrderFeed(chain), earlier', log')
    ensures GlobalSince(HolderFeed(chain), earlier, log) == GlobalSince(HolderFeed(chain), earlier', log')
    ensures ProjectTable(PoolStateOf, GlobalSince(PoolFeed(chain), earlier, log)) ==
            ProjectTable(PoolStateOf, GlobalSince(PoolFeed(chain), earlier', log'))
  {
    forall k: string
      ensures AgreeOn(AccountFeed(chain), Whole(), log, k) && AgreeOn(ValidatorFeed(chain), Whole(), log, k)
      ensures AgreeOn(OrderFeed(chain), Whole(), log, k)
    {
      AccountsAgreeOn(chain, log, k);
      ValidatorsAgreeOn(chain, log, k);
      OrdersAgreeOn(chain, log, k);
    }
    forall k: (string, nat) ensures AgreeOn(HolderFeed(chain), Whole(), log, k) {
      HoldersAgreeOn(chain, log, k);
    }
    forall k: nat ensures AgreeOn(PoolFeed(chain), PoolStateOf, log, k) {
      PoolsAgreeOn(chain, log, k);
    }
    WholeOrderIndependent(AccountFeed(chain), earlier, log, earlier', log');
    WholeOrderIndependent(ValidatorFeed(chain), earlier, log, earlier', log');
    WholeOrderIndependent(OrderFeed(chain), earlier, log, earlier', log');
    WholeOrderIndependent(HolderFeed(chain), earlier, log, earlier', log');
    GlobalOrderIndependent(PoolFeed(chain), PoolStateOf, earlier, log, earlier', log');
  }

  /** The global rows, but for the deltas of pools, depend only on the sets of deliveries before and since the triggers were installed. */
  lemma GlobalsOrderIndependent(chain: Chain, earlier: seq<Delivery>, log: seq<Delivery>, earlier': seq<Delivery>, log': seq<Delivery>)
    requires WellFormed(chain) && ExclusiveDex(chain) && SameDeliveries(earlier, earlier') && SameDeliveries(log, log')
    ensures SameGlobalsButDeltas(GlobalAll(chain, earlier, log), GlobalAll(chain, earlier', log'))
  {
    SnapshotsOrderIndependent(chain, earlier, log, earlier', log');
    NonSignerKeysDistinct(chain);
    CountersOrderIndependent(NonSignerHistory(chain), MissedMoved, NonSignerRow(0), earlier, log, earlier', log');
    DoubleSignerKeysDistinct(chain);
    CountersOrderIndependent(DoubleSignerHistory(chain), EvidenceMoved, DoubleSignerRow(0, 0, 0), earlier, log, earlier', log');
    DexOrderIndependent(OrderView(chain), earlier, log, earlier', log');
    DexOrderIndependent(DepositView(chain), earlier, log, earlier', log');
    DexOrderIndependent(WithdrawalView(chain), earlier, log, earlier', log');
  }
}
