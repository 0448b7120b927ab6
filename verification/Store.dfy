/** One chain's database: every change-detected table, written together, one block a transaction. */
module Store {
  import opened Tables
  import opened ChangeDetection
  import opened Chain
  import opened Deltas
  import opened Snapshots
  import opened Liquidity
  import opened Prices
  import opened Validators
  import opened SigningInfo
  import opened Dex

  datatype TableSet = TableSet(
    accounts: Table<string, AccountRow>,
    validators: Table<string, ValidatorRow>,
    nonSigning: Table<string, NonSignerRow>,
    doubleSigning: Table<string, DoubleSignerRow>,
    pools: Table<nat, PoolRow>,
    orders: Table<string, OrderRow>,
    dexPrices: Table<Pair, PriceRow>,
    dexOrders: Table<string, DexRow<OrderTerms, SwapOutcome>>,
    dexDeposits: Table<string, DexRow<U64, DepositOutcome>>,
    dexWithdrawals: Table<string, DexRow<U64, WithdrawalOutcome>>,
    holders: Table<(string, nat), HolderRow>,
    supply: Table<(), SupplyRow>,
    committees: Table<nat, CommitteeRow>,
    members: Table<(nat, string), MemberRow>)

  const EMPTY := TableSet(map[], map[], map[], map[], map[], map[], map[], map[], map[], map[], map[], map[], map[], map[])

  /** The converted rows of one block, each list as its table receives it. */
  datatype BlockRows = BlockRows(
    height: nat,
    accounts: seq<(string, AccountRow)>,
    validators: seq<(string, ValidatorRow)>,
    nonSigning: seq<(string, NonSignerRow)>,
    doubleSigning: seq<(string, DoubleSignerRow)>,
    pools: seq<(nat, PoolRow)>,
    orders: seq<(string, OrderRow)>,
    dexPrices: seq<(Pair, PriceRow)>,
    dexOrders: seq<(string, DexRow<OrderTerms, SwapOutcome>)>,
    dexDeposits: seq<(string, DexRow<U64, DepositOutcome>)>,
    dexWithdrawals: seq<(string, DexRow<U64, WithdrawalOutcome>)>,
    holders: seq<((string, nat), HolderRow)>,
    supply: seq<((), SupplyRow)>,
    committees: seq<(nat, CommitteeRow)>,
    members: seq<((nat, string), MemberRow)>)

  /** The rows that a delivery of a chain's block is worth. */
  ghost function RowsOf(chain: Chain, d: Delivery): BlockRows {
    BlockRows(d.height, AccountFeed(chain)(d), ValidatorFeed(chain)(d), NonSignerFeed(chain)(d), DoubleSignerFeed(chain)(d),
              PoolFeed(chain)(d), OrderFeed(chain)(d), PriceFeed(chain)(d), DexFeed(OrderView(chain))(d),
              DexFeed(DepositView(chain))(d), DexFeed(WithdrawalView(chain))(d), HolderFeed(chain)(d),
              SupplyFeed(chain)(d), CommitteeFeed(chain)(d), MemberFeed(chain)(d))
  }

  ghost function WriteBlock(t: TableSet, r: BlockRows): TableSet {
    TableSet(Upsert(t.accounts, r.height, r.accounts), Upsert(t.validators, r.height, r.validators),
             Upsert(t.nonSigning, r.height, r.nonSigning), Upsert(t.doubleSigning, r.height, r.doubleSigning),
             Upsert(t.pools, r.height, r.pools), Upsert(t.orders, r.height, r.orders),
             Upsert(t.dexPrices, r.height, r.dexPrices), Upsert(t.dexOrders, r.height, r.dexOrders),
             Upsert(t.dexDeposits, r.height, r.dexDeposits), Upsert(t.dexWithdrawals, r.height, r.dexWithdrawals),
             Upsert(t.holders, r.height, r.holders), Upsert(t.supply, r.height, r.supply),
             Upsert(t.committees, r.height, r.committees), Upsert(t.members, r.height, r.members))
  }

  /** All tables after committing the deliveries of a log. */
  ghost function ReplayAll(chain: Chain, log: seq<Delivery>): TableSet {
    TableSet(Replay(AccountFeed(chain), log), Replay(ValidatorFeed(chain), log), Replay(NonSignerFeed(chain), log),
             Replay(DoubleSignerFeed(chain), log), Replay(PoolFeed(chain), log), Replay(OrderFeed(chain), log),
             Replay(PriceFeed(chain), log), Replay(DexFeed(OrderView(chain)), log), Replay(DexFeed(DepositView(chain)), log),
             Replay(DexFeed(WithdrawalView(chain)), log), Replay(HolderFeed(chain), log), Replay(SupplyFeed(chain), log),
             Replay(CommitteeFeed(chain), log), Replay(MemberFeed(chain), log))
  }

  /** Committing one more block is writing its rows to every table. */
  lemma CommitExtendsReplay(chain: Chain, log: seq<Delivery>, d: Delivery)
    ensures WriteBlock(ReplayAll(chain, log), RowsOf(chain, d)) == ReplayAll(chain, log + [d])
  {
    assert (log + [d])[..|log|] == log;
  }

  // ================================================================ order independence

  /** What is assumed of the node: keys are unique within a blob, ids fit the columns that hold them. */
  ghost predicate WellFormed(chain: Chain) {
    && DistinctAccounts(chain) && DistinctOrders(chain) && ValidatorsWellFormed(chain) && PoolsWellFormed(chain)
    && DistinctHolders(chain) && PricesWellFormed(chain) && DistinctCommittees(chain) && CommitteesFit(chain)
    && DistinctNonSigners(chain) && DistinctDoubleSigners(chain)
    && DistinctView(OrderView(chain)) && DistinctView(DepositView(chain)) && DistinctView(WithdrawalView(chain))
  }

  /** And of the DEX: at every height an id sits in one batch or completes, one of these only. */
  ghost predicate ExclusiveDex(chain: Chain) {
    ExclusiveView(OrderView(chain)) && ExclusiveView(DepositView(chain)) && ExclusiveView(WithdrawalView(chain))
  }

  /** Equal tables, but for the delta columns of pools and prices. */
  ghost predicate SameButDeltas(t: TableSet, u: TableSet) {
    && t.accounts == u.accounts && t.validators == u.validators && t.nonSigning == u.nonSigning
    && t.doubleSigning == u.doubleSigning && t.orders == u.orders && t.dexOrders == u.dexOrders
    && t.dexDeposits == u.dexDeposits && t.dexWithdrawals == u.dexWithdrawals && t.holders == u.holders
    && t.supply == u.supply && t.committees == u.committees && t.members == u.members
    && ProjectTable(PoolStateOf, t.pools) == ProjectTable(PoolStateOf, u.pools)
    && ProjectTable(PriceStateOf, t.dexPrices) == ProjectTable(PriceStateOf, u.dexPrices)
  }

  lemma SnapshotTablesOrderIndependent(chain: Chain, log: seq<Delivery>, other: seq<Delivery>)
    requires WellFormed(chain) && SameDeliveries(log, other)
    ensures Replay(AccountFeed(chain), log) == Replay(AccountFeed(chain), other)
    ensures Replay(OrderFeed(chain), log) == Replay(OrderFeed(chain), other)
    ensures Replay(HolderFeed(chain), log) == Replay(HolderFeed(chain), other)
    ensures Replay(SupplyFeed(chain), log) == Replay(SupplyFeed(chain), other)
    ensures Replay(CommitteeFeed(chain), log) == Replay(CommitteeFeed(chain), other)
  {
    SnapshotFeedsAgree(chain, log);
    OrderIndependence(AccountFeed(chain), log, other);
    OrderIndependence(OrderFeed(chain), log, other);
    OrderIndependence(HolderFeed(chain), log, other);
    OrderIndependence(SupplyFeed(chain), log, other);
    OrderIndependence(CommitteeFeed(chain), log, other);
  }

  lemma SnapshotFeedsAgree(chain: Chain, log: seq<Delivery>)
    requires WellFormed(chain)
    ensures Agree(AccountFeed(chain), log) && Agree(OrderFeed(chain), log) && Agree(HolderFeed(chain), log)
    ensures Agree(SupplyFeed(chain), log) && Agree(CommitteeFeed(chain), log)
  {
    AccountKeysDistinct(chain);
    SnapshotFeedAgrees(AccountHistory(chain), Never(), SameAccount, log);
    OrderKeysDistinct(chain);
    SnapshotFeedAgrees(OrderHistory(chain), Never(), SameOrder, log);
    HolderFeedAgrees(chain, log);
    SupplyKeysDistinct(chain);
    SnapshotFeedAgrees(SupplyHistory(chain), Never(), SameSupply, log);
    CommitteeFeedAgrees(chain, log);
  }

  lemma StateTablesOrderIndependent(chain: Chain, log: seq<Delivery>, other: seq<Delivery>)
    requires WellFormed(chain) && ExclusiveDex(chain) && SameDeliveries(log, other)
    ensures Replay(ValidatorFeed(chain), log) == Replay(ValidatorFeed(chain), other)
    ensures Replay(MemberFeed(chain), log) == Replay(MemberFeed(chain), other)
    ensures Replay(NonSignerFeed(chain), log) == Replay(NonSignerFeed(chain), other)
    ensures Replay(DoubleSignerFeed(chain), log) == Replay(DoubleSignerFeed(chain), other)
    ensures Replay(DexFeed(OrderView(chain)), log) == Replay(DexFeed(OrderView(chain)), other)
    ensures Replay(DexFeed(DepositView(chain)), log) == Replay(DexFeed(DepositView(chain)), other)
    ensures Replay(DexFeed(WithdrawalView(chain)), log) == Replay(DexFeed(WithdrawalView(chain)), other)
  {
    StateFeedsAgree(chain, log);
    OrderIndependence(ValidatorFeed(chain), log, other);
    OrderIndependence(MemberFeed(chain), log, other);
    OrderIndependence(NonSignerFeed(chain), log, other);
    OrderIndependence(DoubleSignerFeed(chain), log, other);
    OrderIndependence(DexFeed(OrderView(chain)), log, other);
    OrderIndependence(DexFeed(DepositView(chain)), log, other);
    OrderIndependence(DexFeed(WithdrawalView(chain)), log, other);
  }

  lemma StateFeedsAgree(chain: Chain, log: seq<Delivery>)
    requires WellFormed(chain) && ExclusiveDex(chain)
    ensures Agree(ValidatorFeed(chain), log) && Agree(MemberFeed(chain), log)
    ensures Agree(NonSignerFeed(chain), log) && Agree(DoubleSignerFeed(chain), log)
    ensures Agree(DexFeed(OrderView(chain)), log) && Agree(DexFeed(DepositView(chain)), log) && Agree(DexFeed(WithdrawalView(chain)), log)
  {
    ValidatorFeedsAgree(chain, log);
    MemberFeedAgrees(chain, log);
    NonSignerKeysDistinct(chain);
    CounterFeedAgrees(NonSignerHistory(chain), MissedMoved, NonSignerRow(0), log);
    DoubleSignerKeysDistinct(chain);
    CounterFeedAgrees(DoubleSignerHistory(chain), EvidenceMoved, DoubleSignerRow(0, 0, 0), log);
    DexFeedAgrees(OrderView(chain), log);
    DexFeedAgrees(DepositView(chain), log);
    DexFeedAgrees(WithdrawalView(chain), log);
  }

  /**
   Order independence for the whole database: two logs of the same deliveries, in any order, with any
   repetitions and with heights delivered in both ways, leave the same tables, but for delta columns.
   */
  lemma DatabaseOrderIndependent(chain: Chain, log: seq<Delivery>, other: seq<Delivery>)
    requires WellFormed(chain) && ExclusiveDex(chain) && SameDeliveries(log, other)
    ensures SameButDeltas(ReplayAll(chain, log), ReplayAll(chain, other))
  {
    SnapshotTablesOrderIndependent(chain, log, other);
    StateTablesOrderIndependent(chain, log, other);
    PoolStatesOrderIndependent(chain, log, other);
    PriceStatesOrderIndependent(chain, log, other);
  }

  /** Exactly when the delta columns are order independent too: no height that came both ways saw a pool or a price change. */
  lemma DatabaseOrderExactly(chain: Chain, log: seq<Delivery>)
    requires WellFormed(chain) && ExclusiveDex(chain)
    ensures (forall other :: SameDeliveries(log, other) ==> ReplayAll(chain, other) == ReplayAll(chain, log)) <==>
            PoolDeltasSettled(chain, log) && PriceDeltasSettled(chain, log)
  {
    PoolFeedAgreesExactly(chain, log);
    PriceFeedAgreesExactly(chain, log);
    OrderIndependentExactly(PoolFeed(chain), log);
    OrderIndependentExactly(PriceFeed(chain), log);
    forall other | SameDeliveries(log, other)
      ensures ReplayAll(chain, other) == ReplayAll(chain, log) <==>
              Replay(PoolFeed(chain), other) == Replay(PoolFeed(chain), log) && Replay(PriceFeed(chain), other) == Replay(PriceFeed(chain), log)
    {
      SnapshotTablesOrderIndependent(chain, log, other);
      StateTablesOrderIndependent(chain, log, other);
    }
  }

  /** Without any assumption on the chain, when no height is delivered both with and without its previous state. */
  lemma UniformOrderIndependent(chain: Chain, log: seq<Delivery>, other: seq<Delivery>)
    requires Uniform(log) && SameDeliveries(log, other)
    ensures ReplayAll(chain, log) == ReplayAll(chain, other)
  {
    SameDeliveriesSameTable(AccountFeed(chain), log, other);
    SameDeliveriesSameTable(ValidatorFeed(chain), log, other);
    SameDeliveriesSameTable(NonSignerFeed(chain), log, other);
    SameDeliveriesSameTable(DoubleSignerFeed(chain), log, other);
    SameDeliveriesSameTable(PoolFeed(chain), log, other);
    SameDeliveriesSameTable(OrderFeed(chain), log, other);
    SameDeliveriesSameTable(PriceFeed(chain), log, other);
    SameDeliveriesSameTable(DexFeed(OrderView(chain)), log, other);
    SameDeliveriesSameTable(DexFeed(DepositView(chain)), log, other);
    SameDeliveriesSameTable(DexFeed(WithdrawalView(chain)), log, other);
    SameDeliveriesSameTable(HolderFeed(chain), log, other);
    SameDeliveriesSameTable(SupplyFeed(chain), log, other);
    SameDeliveriesSameTable(CommitteeFeed(chain), log, other);
    SameDeliveriesSameTable(MemberFeed(chain), log, other);
  }

  lemma SameDeliveriesSameTable<K(!new), V>(feed: Feed<K, V>, log: seq<Delivery>, other: seq<Delivery>)
    requires Uniform(log) && SameDeliveries(log, other)
    ensures Replay(feed, log) == Replay(feed, other)
  {
    UniformAgrees(feed, log);
    OrderIndependence(feed, log, other);
  }

  // ================================================================ conversion

  ghost predicate Converts(rows: BlockRows, data: BlockData) {
    forall chain: Chain, d: Delivery :: data == Delivered(chain, d) ==> rows == RowsOf(chain, d)
  }

  // What each converter is given of a delivery is what the feed of its table speaks of.

  lemma AccountsDelivered(chain: Chain, d: Delivery)
    ensures var data := Delivered(chain, d);
            AccountFeed(chain)(d) ==
            Emit(Map(AccountEntry, data.current.accounts), Collect(Map(AccountEntry, data.previous.accounts)), {}, SameAccount)
  {
    assert PreviousState(AccountHistory(chain), d) == Collect(Map(AccountEntry, Delivered(chain, d).previous.accounts));
  }

  lemma OrdersDelivered(chain: Chain, d: Delivery)
    ensures var data := Delivered(chain, d);
            OrderFeed(chain)(d) ==
            Emit(Map(OrderEntry, data.current.orders), Collect(Map(OrderEntry, data.previous.orders)), {}, SameOrder)
  {
    assert PreviousState(OrderHistory(chain), d) == Collect(Map(OrderEntry, Delivered(chain, d).previous.orders));
  }

  lemma CommitteesDelivered(chain: Chain, d: Delivery)
    ensures var data := Delivered(chain, d);
            CommitteeFeed(chain)(d) ==
            Rekey(CommitteeColumn, Emit(Map(CommitteeEntry, data.current.committees), Collect(Map(CommitteeEntry, data.previous.committees)), {}, SameCommittee))
  {
    var data := Delivered(chain, d);
    assert PreviousState(CommitteeHistory(chain), d) == Collect(Map(CommitteeEntry, data.previous.committees));
    assert SnapshotFeed(CommitteeHistory(chain), Never(), SameCommittee)(d) ==
           Emit(Map(CommitteeEntry, data.current.committees), Collect(Map(CommitteeEntry, data.previous.committees)), {}, SameCommittee);
  }

  lemma SupplyDelivered(chain: Chain, d: Delivery)
    ensures var data := Delivered(chain, d);
            SupplyFeed(chain)(d) ==
            Emit(SupplyEntries(data.current.supply), Collect(SupplyEntries(data.previous.supply)), {}, SameSupply)
  {
    assert PreviousState(SupplyHistory(chain), d) == Collect(SupplyEntries(Delivered(chain, d).previous.supply));
  }

  lemma PoolsDelivered(chain: Chain, d: Delivery)
    ensures var data := Delivered(chain, d);
            var before := Collect(Map(PoolEntry, data.previous.pools));
            PoolFeed(chain)(d) ==
            Rekey(PoolColumn, Decorate(WithPoolDeltas, Emit(Map(PoolEntry, data.current.pools), before, {}, SamePool), before))
  {
    var data := Delivered(chain, d);
    assert PreviousState(PoolHistory(chain), d) == Collect(Map(PoolEntry, data.previous.pools));
    assert SnapshotFeed(PoolHistory(chain), Never(), SamePool)(d) ==
           Emit(Map(PoolEntry, data.current.pools), Collect(Map(PoolEntry, data.previous.pools)), {}, SamePool);
    assert PoolFeed(chain)(d) == Rekey(PoolColumn, DecoratedFeed(PoolHistory(chain), SamePool, WithPoolDeltas)(d));
  }

  lemma HoldersDelivered(chain: Chain, d: Delivery)
    ensures var data := Delivered(chain, d);
            HolderFeed(chain)(d) ==
            Rekey(HolderColumn, Emit(HolderEntries(data.current.pools), Collect(HolderEntries(data.previous.pools)), {}, SameHolder))
  {
    var data := Delivered(chain, d);
    assert PreviousState(HolderHistory(chain), d) == Collect(HolderEntries(data.previous.pools));
    assert SnapshotFeed(HolderHistory(chain), Never(), SameHolder)(d) ==
           Emit(HolderEntries(data.current.pools), Collect(HolderEntries(data.previous.pools)), {}, SameHolder);
  }

  lemma PricesDelivered(chain: Chain, d: Delivery)
    ensures var data := Delivered(chain, d);
            PriceFeed(chain)(d) ==
            Rekey(PriceColumns, PriceRows(data.current.dexPrices, Collect(Map(PriceEntry, data.previous.dexPrices))))
  {
    var data := Delivered(chain, d);
    assert PreviousState(PriceHistory(chain), d) == Collect(Map(PriceEntry, data.previous.dexPrices));
    assert SnapshotFeed(PriceHistory(chain), Never(), SamePrice)(d) ==
           Emit(Map(PriceEntry, data.current.dexPrices), Collect(Map(PriceEntry, data.previous.dexPrices)), {}, SamePrice);
    assert PriceFeed(chain)(d) == Rekey(PriceColumns, DecoratedFeed(PriceHistory(chain), SamePrice, WithPriceDeltas)(d));
  }

  lemma CountersDelivered(chain: Chain, d: Delivery)
    ensures var data := Delivered(chain, d);
            && NonSignerFeed(chain)(d) ==
               TwoPhase(Map(NonSignerEntry, data.current.nonSigners), Map(NonSignerEntry, data.previous.nonSigners),
                        MissedMoved, NonSignerRow(0))
            && DoubleSignerFeed(chain)(d) ==
               TwoPhase(Map(DoubleSignerEntry, data.current.doubleSigners), Map(DoubleSignerEntry, data.previous.doubleSigners),
                        EvidenceMoved, DoubleSignerRow(0, 0, 0))
  {
    var previous := Delivered(chain, d).previous;
    assert PreviousEntries(NonSignerHistory(chain), d) == Map(NonSignerEntry, previous.nonSigners);
    assert PreviousEntries(DoubleSignerHistory(chain), d) == Map(DoubleSignerEntry, previous.doubleSigners);
  }

  lemma ValidatorsDelivered(chain: Chain, d: Delivery)
    ensures var data := Delivered(chain, d);
            var changed := Emit(Map(ValidatorEntry, data.current.validators), Collect(Map(ValidatorEntry, data.previous.validators)),
                                LifecycleAddresses(data.current.events), SameValidator);
            && ValidatorFeed(chain)(d) == Project(ValidatorColumns, changed)
            && MemberFeed(chain)(d) == MemberRows(changed, Members(data.current.subsidizedCommittees),
                                                  Members(data.current.retiredCommittees))
  {
    var data := Delivered(chain, d);
    assert PreviousState(ValidatorHistory(chain), d) == Collect(Map(ValidatorEntry, data.previous.validators));
    assert TrackedFeed(chain)(d) ==
           Emit(Map(ValidatorEntry, data.current.validators), Collect(Map(ValidatorEntry, data.previous.validators)),
                LifecycleAddresses(data.current.events), SameValidator);
  }

  /** What the converters make of one block's data, beside the DEX rows. */
  ghost function Converted(data: BlockData, dexOrders: seq<(string, DexRow<OrderTerms, SwapOutcome>)>,
                           dexDeposits: seq<(string, DexRow<U64, DepositOutcome>)>,
                           dexWithdrawals: seq<(string, DexRow<U64, WithdrawalOutcome>)>): BlockRows
  {
    var cur, prev := data.current, data.previous;
    var changed := Emit(Map(ValidatorEntry, cur.validators), Collect(Map(ValidatorEntry, prev.validators)),
                        LifecycleAddresses(cur.events), SameValidator);
    BlockRows(data.height, AccountRows(cur.accounts, Collect(Map(AccountEntry, prev.accounts))), Project(ValidatorColumns, changed),
              TwoPhase(Map(NonSignerEntry, cur.nonSigners), Map(NonSignerEntry, prev.nonSigners), MissedMoved, NonSignerRow(0)),
              TwoPhase(Map(DoubleSignerEntry, cur.doubleSigners), Map(DoubleSignerEntry, prev.doubleSigners), EvidenceMoved,
                       DoubleSignerRow(0, 0, 0)),
              Rekey(PoolColumn, PoolRows(cur.pools, Collect(Map(PoolEntry, prev.pools)))),
              OrderRows(cur.orders, Collect(Map(OrderEntry, prev.orders))),
              Rekey(PriceColumns, PriceRows(cur.dexPrices, Collect(Map(PriceEntry, prev.dexPrices)))),
              dexOrders, dexDeposits, dexWithdrawals,
              Rekey(HolderColumn, ChangedHolders(HolderEntries(cur.pools), Collect(HolderEntries(prev.pools)))),
              Emit(SupplyEntries(cur.supply), Collect(SupplyEntries(prev.supply)), {}, SameSupply),
              Rekey(CommitteeColumn, CommitteeRows(cur.committees, Collect(Map(CommitteeEntry, prev.committees)))),
              MemberRows(changed, Members(cur.subsidizedCommittees), Members(cur.retiredCommittees)))
  }

  lemma DeliveredRows(chain: Chain, d: Delivery)
    ensures Converted(Delivered(chain, d), DexFeed(OrderView(chain))(d), DexFeed(DepositView(chain))(d), DexFeed(WithdrawalView(chain))(d)) ==
            RowsOf(chain, d)
  {
    AccountsDelivered(chain, d);
    OrdersDelivered(chain, d);
    CommitteesDelivered(chain, d);
    SupplyDelivered(chain, d);
    PoolsDelivered(chain, d);
    HoldersDelivered(chain, d);
    PricesDelivered(chain, d);
    CountersDelivered(chain, d);
    ValidatorsDelivered(chain, d);
  }

  /** All converters of one block's data. */
  method ConvertToBlockData(data: BlockData) returns (rows: BlockRows)
    ensures Converts(rows, data)
  {
    var accounts := ConvertAccounts(data.current.accounts, data.previous.accounts);
    var pools := ConvertPools(data.current.pools, data.previous.pools);
    var orders := ConvertOrders(data.current.orders, data.previous.orders);
    var dexPrices := ConvertDexPrices(data.current.dexPrices, data.previous.dexPrices);
    var supply := ConvertSupply(data.current.supply, data.previous.supply);
    var committees := ConvertCommittees(data.current.committees, data.previous.committees);
    var validators, members := ConvertValidators(data.current.validators, data.previous.validators, data.current.events,
                                                 data.current.subsidizedCommittees, data.current.retiredCommittees);
    var nonSigning := ConvertNonSigners(data.current.nonSigners, data.previous.nonSigners);
    var doubleSigning := ConvertDoubleSigners(data.current.doubleSigners, data.previous.doubleSigners);
    var holders := ConvertPoolPoints(data.current.pools, data.previous.pools);
    var dexOrders := ConvertDexOrders(data);
    var dexDeposits := ConvertDexDeposits(data);
    var dexWithdrawals := ConvertDexWithdrawals(data);
    rows := BlockRows(data.height, accounts, validators, nonSigning, doubleSigning, Rekey(PoolColumn, pools), orders,
                      Rekey(PriceColumns, dexPrices), dexOrders, dexDeposits, dexWithdrawals,
                      Rekey(HolderColumn, holders), supply, Rekey(CommitteeColumn, committees), members);
    assert rows == Converted(data, dexOrders, dexDeposits, dexWithdrawals);
    forall chain: Chain, d: Delivery | data == Delivered(chain, d)
      ensures rows == RowsOf(chain, d)
    {
      DeliveredRows(chain, d);
    }
  }
}
