/** From a clean backfill to what the readers of the database see. */
module EndToEnd {
  import opened Encoding
  import opened Tables
  import opened ChangeDetection
  import opened Chain
  import opened Deltas
  import opened Snapshots
  import opened Liquidity
  import opened Prices
  import opened Validators
  import opened SigningInfo
  import opened Dex
  import opened DexBlobs
  import opened Store
  import opened Triggers
  import opened GlobalStore
  import opened Indexing
  import opened ChainDb
  import opened Gaps
  import opened Backfill

  lemma CoveredIsIndexed(log: seq<Delivery>, n: nat)
    requires Covered(Heights(log), 1, n)
    ensures IndexedThrough(log, n)
  {
    forall i | 1 <= i <= n ensures Indexed(log, i) {
      assert i in Heights(log);
      var d :| d in log && d.height == i;
    }
  }

  /** Without blocks above n, the latest view reads what the as-of query at n reads. */
  lemma LatestOfReplay<K, V>(feed: Feed<K, V>, log: seq<Delivery>, k: K, n: nat)
    requires NothingAbove(log, n)
    ensures Latest(Replay(feed, log), k) == AsOf(Replay(feed, log), k, n)
  {
    forall h: nat | (k, h) in Replay(feed, log)
      ensures h <= n
    {
      ReplayRow(feed, log, k, h);
    }
    LatestIsAsOf(Replay(feed, log), k, n);
  }

  /** A reader of the chain's own table gets row for the key: as of n, and as its newest while no block above n is there. */
  ghost predicate Reads<K, V>(t: Table<K, V>, log: seq<Delivery>, k: K, n: nat, row: Option<V>) {
    AsOf(t, k, n) == row && (NothingAbove(log, n) ==> Latest(t, k) == row)
  }

  lemma ReplayReads<K, V>(feed: Feed<K, V>, log: seq<Delivery>, k: K, n: nat)
    ensures Reads(Replay(feed, log), log, k, n, AsOf(Replay(feed, log), k, n))
  {
    if NothingAbove(log, n) {
      LatestOfReplay(feed, log, k, n);
    }
  }

  // Table by table: every entity of the chain's state at n is seen as it is, or not at all, and the
  // latter exactly when it stood unchanged since before the first block.

  ghost predicate AccountsShown(chain: Chain, t: Table<string, AccountRow>, log: seq<Delivery>, n: nat) {
    forall a :: a in chain(n).accounts ==>
      var k := Hex(a.address);
      Reads(t, log, k, n, if Dormant(AccountHistory(chain), Never(), SameAccount, log, k, n) then None
                         else Some(AccountRow(a.amount, 0, 0)))
  }

  ghost predicate ValidatorsShown(chain: Chain, t: Table<string, ValidatorRow>, log: seq<Delivery>, n: nat) {
    forall v :: v in chain(n).validators ==>
      var k, row := Hex(v.address), AsOf(t, Hex(v.address), n);
      && Reads(t, log, k, n, row)
      && (row.None? <==> Dormant(ValidatorHistory(chain), LifecycleForced(chain), SameValidator, log, k, n))
      && (row.Some? ==> ShowsValidator(v, row.value))
  }

  ghost predicate CommitteesShown(chain: Chain, t: Table<nat, CommitteeRow>, log: seq<Delivery>, n: nat) {
    forall c :: c in chain(n).committees ==>
      var k, row := c.chainId as nat, AsOf(t, c.chainId as nat, n);
      && Reads(t, log, k, n, row)
      && (row.None? <==> Dormant(CommitteeHistory(chain), Never(), SameCommittee, log, k, n))
      && (row.Some? ==> ShowsCommittee(c, row.value))
  }

  /** Orders, pools, holders and prices carry columns beside the compared ones; only the latter are claimed. */
  ghost predicate SellOrderShown(chain: Chain, t: Table<string, OrderRow>, log: seq<Delivery>, n: nat, o: SellOrder) {
    var k, row := Hex(o.id), AsOf(t, Hex(o.id), n);
    && Reads(t, log, k, n, row)
    && (row.None? <==> Dormant(OrderHistory(chain), Never(), SameOrder, log, k, n))
    && (row.Some? ==> ShowsOrder(o, row.value))
  }

  ghost predicate OrdersShown(chain: Chain, t: Table<string, OrderRow>, log: seq<Delivery>, n: nat) {
    forall o :: o in chain(n).orders ==> SellOrderShown(chain, t, log, n, o)
  }

  ghost predicate PoolShown(chain: Chain, t: Table<nat, PoolRow>, log: seq<Delivery>, n: nat, p: Pool) {
    var row := AsOf(t, p.id as nat, n);
    && Reads(t, log, p.id as nat, n, row)
    && (row.None? <==> Dormant(PoolHistory(chain), Never(), SamePool, log, p.id, n))
    && (row.Some? ==> row.value.state.amount == p.amount && row.value.state.totalPoints == p.totalPoolPoints &&
                      row.value.state.lpCount == |p.points| % 0x1_0000)
  }

  ghost predicate PoolsShown(chain: Chain, t: Table<nat, PoolRow>, log: seq<Delivery>, n: nat) {
    forall p :: p in chain(n).pools ==> PoolShown(chain, t, log, n, p)
  }

  ghost predicate HolderShown(chain: Chain, t: Table<(string, nat), HolderRow>, log: seq<Delivery>, n: nat, p: Pool, pp: PoolPoints) {
    var k := (Hex(pp.address), p.id as nat);
    var row := AsOf(t, k, n);
    && Reads(t, log, k, n, row)
    && (row.None? <==> Dormant(HolderHistory(chain), Never(), SameHolder, log, k, n))
    && (row.Some? ==> row.value.points == pp.points && row.value.liquidityPoolPoints == p.totalPoolPoints)
  }

  ghost predicate HoldersShown(chain: Chain, t: Table<(string, nat), HolderRow>, log: seq<Delivery>, n: nat) {
    forall p, pp :: p in chain(n).pools && pp in p.points ==> HolderShown(chain, t, log, n, p, pp)
  }

  ghost predicate PriceShown(chain: Chain, t: Table<Pair, PriceRow>, log: seq<Delivery>, n: nat, p: DexPrice) {
    var k := (p.localChainId as nat, p.remoteChainId as nat);
    var row := AsOf(t, k, n);
    && Reads(t, log, k, n, row)
    && (row.None? <==> Dormant(PriceHistory(chain), Never(), SamePrice, log, k, n))
    && (row.Some? ==> row.value.state.priceE6 == p.e6ScaledPrice && row.value.state.localPool == p.localPool &&
                      row.value.state.remotePool == p.remotePool)
  }

  ghost predicate PricesShown(chain: Chain, t: Table<Pair, PriceRow>, log: seq<Delivery>, n: nat) {
    forall p :: p in chain(n).dexPrices ==> PriceShown(chain, t, log, n, p)
  }

  /** Where every change was seen, a counter reads as the chain has it, with zero for an address it no longer lists. */
  ghost predicate MissedShown(chain: Chain, t: Table<string, NonSignerRow>, log: seq<Delivery>, n: nat) {
    forall a: Bytes :: n > 0 && EveryChangeSeen(NonSignerHistory(chain), MissedMoved, Missed, log, Hex(a), n) ==>
      MissedIs(chain, n, a, CounterRead(t, Missed, Hex(a), n))
  }

  ghost predicate EvidenceShown(chain: Chain, t: Table<string, DoubleSignerRow>, log: seq<Delivery>, n: nat) {
    forall a: Bytes :: n > 0 && EveryChangeSeen(DoubleSignerHistory(chain), EvidenceMoved, Evidence, log, Hex(a), n) ==>
      EvidenceIs(chain, n, a, CounterRead(t, Evidence, Hex(a), n))
  }

  ghost predicate SupplyShown(chain: Chain, t: Table<(), SupplyRow>, log: seq<Delivery>, n: nat) {
    chain(n).supply.Some? ==>
      var s := chain(n).supply.value;
      Reads(t, log, (), n, if Dormant(SupplyHistory(chain), Never(), SameSupply, log, (), n) then None
                          else Some(SupplyRow(s.total, s.staked, s.delegatedOnly)))
  }

  /**
   The newest row of an id whose life is regular names its stage at n with its terms there; once the id
   left, it has its last terms, complete with its outcome if the completion was seen. There is no row exactly
   when no block had news of the id.
   */
  ghost predicate StageShown<T, X>(view: View<T, X>, t: Table<string, DexRow<T, X>>, log: seq<Delivery>, n: nat, id: string, life: Life) {
    var row := AsOf(t, id, n);
    && Reads(t, log, id, n, row)
    && (row.None? <==> Unseen(view, id, life, log, n))
    && (row.Some? ==> NamesLife(view, id, life, log, n, row.value))
  }

  ghost predicate StagesShown<T, X>(view: View<T, X>, t: Table<string, DexRow<T, X>>, log: seq<Delivery>, n: nat) {
    forall id, life: Life :: Lives(view, id, life) ==> StageShown(view, t, log, n, id, life)
  }

  /** In the fields of the batches and events: an order that is not older than height 1 has a row from the first on. */
  ghost predicate DexOrdersShown(chain: Chain, t: Table<string, DexRow<OrderTerms, SwapOutcome>>, log: seq<Delivery>, n: nat) {
    forall id, life: Life :: OrderLives(chain, id, life) ==>
      var row := AsOf(t, id, n);
      && (row.Some? ==> OrderShown(chain, id, life, log, n, row.value))
      && (life(0) == Absent ==> (row.Some? <==> life(n) != Absent))
  }

  ghost predicate DexDepositsShown(chain: Chain, t: Table<string, DexRow<U64, DepositOutcome>>, log: seq<Delivery>, n: nat) {
    forall id, life: Life :: DepositLives(chain, id, life) ==>
      var row := AsOf(t, id, n);
      && (row.Some? ==> DepositShown(chain, id, life, log, n, row.value))
      && (life(0) == Absent ==> (row.Some? <==> life(n) != Absent))
  }

  ghost predicate DexWithdrawalsShown(chain: Chain, t: Table<string, DexRow<U64, WithdrawalOutcome>>, log: seq<Delivery>, n: nat) {
    forall id, life: Life :: WithdrawalLives(chain, id, life) ==>
      var row := AsOf(t, id, n);
      && (row.Some? ==> WithdrawalShown(chain, id, life, log, n, row.value))
      && (life(0) == Absent ==> (row.Some? <==> life(n) != Absent))
  }

  /** The three DEX tables, by stage and in the blobs' own fields. */
  ghost predicate DexShown(chain: Chain, t: TableSet, log: seq<Delivery>, n: nat) {
    && StagesShown(OrderView(chain), t.dexOrders, log, n) && DexOrdersShown(chain, t.dexOrders, log, n)
    && StagesShown(DepositView(chain), t.dexDeposits, log, n) && DexDepositsShown(chain, t.dexDeposits, log, n)
    && StagesShown(WithdrawalView(chain), t.dexWithdrawals, log, n) && DexWithdrawalsShown(chain, t.dexWithdrawals, log, n)
  }

  /** The member rows beside a validator's newest row are exactly its committees at n, with its stake, status and flags. */
  ghost predicate MembersShown(chain: Chain, t: Table<string, ValidatorRow>, members: Table<(nat, string), MemberRow>, n: nat) {
    forall v, m: nat, c: nat ::
      v in chain(n).validators && m <= n && (Hex(v.address), m) in t && (forall i :: m < i <= n ==> (Hex(v.address), i) !in t) ==>
      && (((c, Hex(v.address)), m) in members <==> c in v.committees)
      && (((c, Hex(v.address)), m) in members ==> ShowsMember(v, chain(m), c, members[((c, Hex(v.address)), m)]))
  }

  /** The chain's own tables show the chain at n. */
  ghost predicate Shown(chain: Chain, t: TableSet, log: seq<Delivery>, n: nat) {
    && AccountsShown(chain, t.accounts, log, n)
    && ValidatorsShown(chain, t.validators, log, n)
    && CommitteesShown(chain, t.committees, log, n)
    && OrdersShown(chain, t.orders, log, n)
    && PoolsShown(chain, t.pools, log, n)
    && HoldersShown(chain, t.holders, log, n)
    && PricesShown(chain, t.dexPrices, log, n)
    && MissedShown(chain, t.nonSigning, log, n)
    && EvidenceShown(chain, t.doubleSigning, log, n)
    && SupplyShown(chain, t.supply, log, n)
    && DexShown(chain, t, log, n)
    && MembersShown(chain, t.validators, t.members, n)
  }

  lemma AccountsAreShown(chain: Chain, log: seq<Delivery>, n: nat)
    requires WellFormed(chain) && IndexedThrough(log, n)
    ensures AccountsShown(chain, Replay(AccountFeed(chain), log), log, n)
  {
    forall a | a in chain(n).accounts
      ensures Reads(Replay(AccountFeed(chain), log), log, Hex(a.address), n,
                   if Dormant(AccountHistory(chain), Never(), SameAccount, log, Hex(a.address), n) then None
                   else Some(AccountRow(a.amount, 0, 0)))
    {
      AccountsAsOf(chain, log, n, a);
      ReplayReads(AccountFeed(chain), log, Hex(a.address), n);
    }
  }

  lemma ValidatorsAreShown(chain: Chain, log: seq<Delivery>, n: nat)
    requires WellFormed(chain) && IndexedThrough(log, n)
    ensures ValidatorsShown(chain, Replay(ValidatorFeed(chain), log), log, n)
  {
    forall v | v in chain(n).validators
      ensures var k, row := Hex(v.address), AsOf(Replay(ValidatorFeed(chain), log), Hex(v.address), n);
              && Reads(Replay(ValidatorFeed(chain), log), log, k, n, row)
              && (row.None? <==> Dormant(ValidatorHistory(chain), LifecycleForced(chain), SameValidator, log, k, n))
              && (row.Some? ==> ShowsValidator(v, row.value))
    {
      ValidatorsAsOf(chain, log, n, v);
      ReplayReads(ValidatorFeed(chain), log, Hex(v.address), n);
    }
  }

  lemma CommitteesAreShown(chain: Chain, log: seq<Delivery>, n: nat)
    requires WellFormed(chain) && IndexedThrough(log, n)
    ensures CommitteesShown(chain, Replay(CommitteeFeed(chain), log), log, n)
  {
    forall c | c in chain(n).committees
      ensures var k, row := c.chainId as nat, AsOf(Replay(CommitteeFeed(chain), log), c.chainId as nat, n);
              && Reads(Replay(CommitteeFeed(chain), log), log, k, n, row)
              && (row.None? <==> Dormant(CommitteeHistory(chain), Never(), SameCommittee, log, k, n))
              && (row.Some? ==> ShowsCommittee(c, row.value))
    {
      CommitteesAsOf(chain, log, n, c);
      ReplayReads(CommitteeFeed(chain), log, c.chainId as nat, n);
    }
  }

  lemma OrdersAreShown(chain: Chain, log: seq<Delivery>, n: nat)
    requires WellFormed(chain) && IndexedThrough(log, n)
    ensures OrdersShown(chain, Replay(OrderFeed(chain), log), log, n)
  {
    forall o | o in chain(n).orders
      ensures SellOrderShown(chain, Replay(OrderFeed(chain), log), log, n, o)
    {
      OrdersAsOf(chain, log, n, o);
      ReplayReads(OrderFeed(chain), log, Hex(o.id), n);
    }
  }

  lemma PoolsAreShown(chain: Chain, log: seq<Delivery>, n: nat)
    requires WellFormed(chain) && IndexedThrough(log, n)
    ensures PoolsShown(chain, Replay(PoolFeed(chain), log), log, n)
  {
    forall p | p in chain(n).pools
      ensures PoolShown(chain, Replay(PoolFeed(chain), log), log, n, p)
    {
      PoolsAsOf(chain, log, n, p);
      ReplayReads(PoolFeed(chain), log, p.id as nat, n);
    }
  }

  lemma HoldersAreShown(chain: Chain, log: seq<Delivery>, n: nat)
    requires WellFormed(chain) && IndexedThrough(log, n)
    ensures HoldersShown(chain, Replay(HolderFeed(chain), log), log, n)
  {
    forall p, pp | p in chain(n).pools && pp in p.points
      ensures HolderShown(chain, Replay(HolderFeed(chain), log), log, n, p, pp)
    {
      HoldersAsOf(chain, log, n, p, pp);
      ReplayReads(HolderFeed(chain), log, (Hex(pp.address), p.id as nat), n);
    }
  }

  lemma PricesAreShown(chain: Chain, log: seq<Delivery>, n: nat)
    requires WellFormed(chain) && IndexedThrough(log, n)
    ensures PricesShown(chain, Replay(PriceFeed(chain), log), log, n)
  {
    forall p | p in chain(n).dexPrices
      ensures PriceShown(chain, Replay(PriceFeed(chain), log), log, n, p)
    {
      PricesAsOf(chain, log, n, p);
      ReplayReads(PriceFeed(chain), log, (p.localChainId as nat, p.remoteChainId as nat), n);
    }
  }

  lemma MissedAreShown(chain: Chain, log: seq<Delivery>, n: nat)
    requires WellFormed(chain) && IndexedThrough(log, n)
    ensures MissedShown(chain, Replay(NonSignerFeed(chain), log), log, n)
  {
    forall a: Bytes | n > 0 && EveryChangeSeen(NonSignerHistory(chain), MissedMoved, Missed, log, Hex(a), n)
      ensures MissedIs(chain, n, a, CounterRead(Replay(NonSignerFeed(chain), log), Missed, Hex(a), n))
    {
      MissedBlocksReconstruct(chain, log, n, a);
      assert MissedReads(chain, log, a, n);
    }
  }

  lemma EvidenceIsShown(chain: Chain, log: seq<Delivery>, n: nat)
    requires WellFormed(chain) && IndexedThrough(log, n)
    ensures EvidenceShown(chain, Replay(DoubleSignerFeed(chain), log), log, n)
  {
    forall a: Bytes | n > 0 && EveryChangeSeen(DoubleSignerHistory(chain), EvidenceMoved, Evidence, log, Hex(a), n)
      ensures EvidenceIs(chain, n, a, CounterRead(Replay(DoubleSignerFeed(chain), log), Evidence, Hex(a), n))
    {
      EvidenceReconstructs(chain, log, n, a);
      assert EvidenceReads(chain, log, a, n);
    }
  }

  lemma SupplyIsShown(chain: Chain, log: seq<Delivery>, n: nat)
    requires IndexedThrough(log, n)
    ensures SupplyShown(chain, Replay(SupplyFeed(chain), log), log, n)
  {
    if chain(n).supply.Some? {
      SupplyAsOf(chain, log, n, chain(n).supply.value);
      ReplayReads(SupplyFeed(chain), log, (), n);
    }
  }

  lemma StagesAreShown<T, X>(view: View<T, X>, log: seq<Delivery>, n: nat)
    requires DistinctView(view) && IndexedThrough(log, n)
    ensures StagesShown(view, Replay(DexFeed(view), log), log, n)
  {
    forall id, life: Life | Lives(view, id, life)
      ensures StageShown(view, Replay(DexFeed(view), log), log, n, id, life)
    {
      LifecycleAsOf(view, id, life, log, n);
      ReplayReads(DexFeed(view), log, id, n);
    }
  }

  lemma DexIsShown(chain: Chain, log: seq<Delivery>, n: nat)
    requires WellFormed(chain) && IndexedThrough(log, n)
    ensures DexShown(chain, ReplayAll(chain, log), log, n)
  {
    StagesAreShown(OrderView(chain), log, n);
    StagesAreShown(DepositView(chain), log, n);
    StagesAreShown(WithdrawalView(chain), log, n);
    DexOrdersAreShown(chain, log, n);
    DexDepositsAreShown(chain, log, n);
    DexWithdrawalsAreShown(chain, log, n);
  }

  lemma DexOrdersAreShown(chain: Chain, log: seq<Delivery>, n: nat)
    requires DistinctView(OrderView(chain)) && IndexedThrough(log, n)
    ensures DexOrdersShown(chain, Replay(DexFeed(OrderView(chain)), log), log, n)
  {
    forall id, life: Life | OrderLives(chain, id, life)
      ensures var row := AsOf(Replay(DexFeed(OrderView(chain)), log), id, n);
              && (row.Some? ==> OrderShown(chain, id, life, log, n, row.value))
              && (life(0) == Absent ==> (row.Some? <==> life(n) != Absent))
    {
      OrderAsOf(chain, log, n, id, life);
    }
  }

  lemma DexDepositsAreShown(chain: Chain, log: seq<Delivery>, n: nat)
    requires DistinctView(DepositView(chain)) && IndexedThrough(log, n)
    ensures DexDepositsShown(chain, Replay(DexFeed(DepositView(chain)), log), log, n)
  {
    forall id, life: Life | DepositLives(chain, id, life)
      ensures var row := AsOf(Replay(DexFeed(DepositView(chain)), log), id, n);
              && (row.Some? ==> DepositShown(chain, id, life, log, n, row.value))
              && (life(0) == Absent ==> (row.Some? <==> life(n) != Absent))
    {
      DepositAsOf(chain, log, n, id, life);
    }
  }

  lemma DexWithdrawalsAreShown(chain: Chain, log: seq<Delivery>, n: nat)
    requires DistinctView(WithdrawalView(chain)) && IndexedThrough(log, n)
    ensures DexWithdrawalsShown(chain, Replay(DexFeed(WithdrawalView(chain)), log), log, n)
  {
    forall id, life: Life | WithdrawalLives(chain, id, life)
      ensures var row := AsOf(Replay(DexFeed(WithdrawalView(chain)), log), id, n);
              && (row.Some? ==> WithdrawalShown(chain, id, life, log, n, row.value))
              && (life(0) == Absent ==> (row.Some? <==> life(n) != Absent))
    {
      WithdrawalAsOf(chain, log, n, id, life);
    }
  }

  lemma MembersAreShown(chain: Chain, log: seq<Delivery>, n: nat)
    requires WellFormed(chain) && IndexedThrough(log, n)
    ensures MembersShown(chain, Replay(ValidatorFeed(chain), log), Replay(MemberFeed(chain), log), n)
  {
    forall v, m: nat, c: nat | v in chain(n).validators && m <= n && (Hex(v.address), m) in Replay(ValidatorFeed(chain), log) &&
                               (forall i :: m < i <= n ==> (Hex(v.address), i) !in Replay(ValidatorFeed(chain), log))
      ensures ((c, Hex(v.address)), m) in Replay(MemberFeed(chain), log) <==> c in v.committees
      ensures ((c, Hex(v.address)), m) in Replay(MemberFeed(chain), log) ==>
              ShowsMember(v, chain(m), c, Replay(MemberFeed(chain), log)[((c, Hex(v.address)), m)])
    {
      CommitteeMembership(chain, log, n, v, m, c);
    }
  }

  /** With heights 1 to n indexed, whoever indexed them and in whatever order, the database shows the chain at n. */
  lemma CoveredIsShown(chain: Chain, log: seq<Delivery>, n: nat)
    requires WellFormed(chain) && Covered(Heights(log), 1, n)
    ensures Shown(chain, ReplayAll(chain, log), log, n)
  {
    CoveredIsIndexed(log, n);
    AccountsAreShown(chain, log, n);
    ValidatorsAreShown(chain, log, n);
    CommitteesAreShown(chain, log, n);
    OrdersAreShown(chain, log, n);
    PoolsAreShown(chain, log, n);
    HoldersAreShown(chain, log, n);
    PricesAreShown(chain, log, n);
    MissedAreShown(chain, log, n);
    EvidenceIsShown(chain, log, n);
    SupplyIsShown(chain, log, n);
    DexIsShown(chain, log, n);
    MembersAreShown(chain, log, n);
  }

  // ================================================================ the global rows

  /**
   The latest view of the global rows g, while no block above n is there, beside the chain's own table t: it
   has the key's newest row, as p sees it, exactly when that row was not in t0, the table at the time when
   the triggers were installed; and then it reads what the own table reads at n.
   */
  ghost predicate SeenGlobally<K, V, P>(p: V -> P, t: Table<K, V>, t0: Table<K, V>, g: Table<K, V>, log: seq<Delivery>, k: K, n: nat) {
    NothingAbove(log, n) ==>
      && (NewestIn(p, t, g, k) <==> forall m: nat :: IsNewest(t, k, m) ==> (k, m) !in t0)
      && (NewestIn(p, t, g, k) ==> SameBy(p, Latest(g, k), AsOf(t, k, n)))
  }

  lemma GloballySeen<K, V, P>(feed: Feed<K, V>, p: V -> P, earlier: seq<Delivery>, since: seq<Delivery>, k: K, n: nat)
    requires AgreeOn(feed, p, earlier + since, k)
    ensures SeenGlobally(p, Replay(feed, earlier + since), Replay(feed, earlier), GlobalSince(feed, earlier, since), earlier + since, k, n)
  {
    if NothingAbove(earlier + since, n) {
      LatestOfGlobal(feed, p, earlier, since, k, n);
    }
  }

  /** With triggers from the start, the view reads every such key. */
  lemma SeenFromTheStart<K, V, P>(p: V -> P, t: Table<K, V>, g: Table<K, V>, log: seq<Delivery>, k: K, n: nat)
    requires SeenGlobally(p, t, map[], g, log, k, n) && NothingAbove(log, n)
    ensures SameBy(p, Latest(g, k), AsOf(t, k, n))
  {
  }

  ghost predicate DexSeenGlobally<T, X>(view: View<T, X>, t: Table<string, DexRow<T, X>>, t0: Table<string, DexRow<T, X>>,
                                        g: Table<string, DexRow<T, X>>, log: seq<Delivery>, n: nat)
  {
    forall id: string :: (forall h: nat :: ExclusiveAt(view, id, h)) ==> SeenGlobally(Whole(), t, t0, g, log, id, n)
  }

  /** That for every key of the mirrored tables, pools but for their deltas, and DEX ids that do one thing at a time. */
  ghost predicate GlobalsShown(chain: Chain, t: TableSet, t0: TableSet, g: Globals, log: seq<Delivery>, n: nat) {
    && (forall k :: SeenGlobally(Whole(), t.accounts, t0.accounts, g.accounts, log, k, n))
    && (forall k :: SeenGlobally(Whole(), t.validators, t0.validators, g.validators, log, k, n))
    && (forall k :: SeenGlobally(Whole(), t.nonSigning, t0.nonSigning, g.nonSigning, log, k, n))
    && (forall k :: SeenGlobally(Whole(), t.doubleSigning, t0.doubleSigning, g.doubleSigning, log, k, n))
    && (forall k :: SeenGlobally(PoolStateOf, t.pools, t0.pools, g.pools, log, k, n))
    && (forall k :: SeenGlobally(Whole(), t.orders, t0.orders, g.orders, log, k, n))
    && (forall k :: SeenGlobally(Whole(), t.holders, t0.holders, g.holders, log, k, n))
    && DexSeenGlobally(OrderView(chain), t.dexOrders, t0.dexOrders, g.dexOrders, log, n)
    && DexSeenGlobally(DepositView(chain), t.dexDeposits, t0.dexDeposits, g.dexDeposits, log, n)
    && DexSeenGlobally(WithdrawalView(chain), t.dexWithdrawals, t0.dexWithdrawals, g.dexWithdrawals, log, n)
  }

  lemma DexGloballySeen<T, X>(view: View<T, X>, earlier: seq<Delivery>, since: seq<Delivery>, n: nat)
    requires DistinctView(view)
    ensures DexSeenGlobally(view, Replay(DexFeed(view), earlier + since), Replay(DexFeed(view), earlier),
                            GlobalSince(DexFeed(view), earlier, since), earlier + since, n)
  {
    forall id: string | forall h: nat :: ExclusiveAt(view, id, h)
      ensures SeenGlobally(Whole(), Replay(DexFeed(view), earlier + since), Replay(DexFeed(view), earlier),
                           GlobalSince(DexFeed(view), earlier, since), earlier + since, id, n)
    {
      DexAgreesOn(view, earlier + since, id);
      GloballySeen(DexFeed(view), Whole(), earlier, since, id, n);
    }
  }

  lemma AllSeen<K(!new), V, P>(feed: Feed<K, V>, p: V -> P, earlier: seq<Delivery>, since: seq<Delivery>, n: nat)
    requires forall k :: AgreeOn(feed, p, earlier + since, k)
    ensures forall k :: SeenGlobally(p, Replay(feed, earlier + since), Replay(feed, earlier), GlobalSince(feed, earlier, since), earlier + since, k, n)
  {
    forall k ensures SeenGlobally(p, Replay(feed, earlier + since), Replay(feed, earlier), GlobalSince(feed, earlier, since), earlier + since, k, n) {
      GloballySeen(feed, p, earlier, since, k, n);
    }
  }

  lemma AllAgree(chain: Chain, log: seq<Delivery>)
    requires WellFormed(chain)
    ensures forall k :: AgreeOn(AccountFeed(chain), Whole(), log, k)
    ensures forall k :: AgreeOn(ValidatorFeed(chain), Whole(), log, k)
    ensures forall k :: AgreeOn(NonSignerFeed(chain), Whole(), log, k)
    ensures forall k :: AgreeOn(DoubleSignerFeed(chain), Whole(), log, k)
    ensures forall k :: AgreeOn(PoolFeed(chain), PoolStateOf, log, k)
    ensures forall k :: AgreeOn(OrderFeed(chain), Whole(), log, k)
    ensures forall k :: AgreeOn(HolderFeed(chain), Whole(), log, k)
  {
    NonSignerKeysDistinct(chain);
    DoubleSignerKeysDistinct(chain);
    forall k: string
      ensures AgreeOn(AccountFeed(chain), Whole(), log, k) && AgreeOn(ValidatorFeed(chain), Whole(), log, k)
      ensures AgreeOn(NonSignerFeed(chain), Whole(), log, k) && AgreeOn(DoubleSignerFeed(chain), Whole(), log, k)
      ensures AgreeOn(OrderFeed(chain), Whole(), log, k)
    {
      AccountsAgreeOn(chain, log, k);
      ValidatorsAgreeOn(chain, log, k);
      CountersAgreeOn(NonSignerHistory(chain), MissedMoved, NonSignerRow(0), log, k);
      CountersAgreeOn(DoubleSignerHistory(chain), EvidenceMoved, DoubleSignerRow(0, 0, 0), log, k);
      OrdersAgreeOn(chain, log, k);
    }
    forall k: nat ensures AgreeOn(PoolFeed(chain), PoolStateOf, log, k) {
      PoolsAgreeOn(chain, log, k);
    }
    forall k: (string, nat) ensures AgreeOn(HolderFeed(chain), Whole(), log, k) {
      HoldersAgreeOn(chain, log, k);
    }
  }

  /** Whatever was committed before and since the triggers were installed, the latest views read what was written since. */
  lemma GlobalsAreShown(chain: Chain, earlier: seq<Delivery>, since: seq<Delivery>, n: nat)
    requires WellFormed(chain)
    ensures GlobalsShown(chain, ReplayAll(chain, earlier + since), ReplayAll(chain, earlier), GlobalAll(chain, earlier, since), earlier + since, n)
  {
    AllAgree(chain, earlier + since);
    AllSeen(AccountFeed(chain), Whole(), earlier, since, n);
    AllSeen(ValidatorFeed(chain), Whole(), earlier, since, n);
    AllSeen(NonSignerFeed(chain), Whole(), earlier, since, n);
    AllSeen(DoubleSignerFeed(chain), Whole(), earlier, since, n);
    AllSeen(PoolFeed(chain), PoolStateOf, earlier, since, n);
    AllSeen(OrderFeed(chain), Whole(), earlier, since, n);
    AllSeen(HolderFeed(chain), Whole(), earlier, since, n);
    DexGloballySeen(OrderView(chain), earlier, since, n);
    DexGloballySeen(DepositView(chain), earlier, since, n);
    DexGloballySeen(WithdrawalView(chain), earlier, since, n);
  }

  // ================================================================ a clean backfill

  /** The run was over [1, n], did not stop early, and no attempt in it failed. */
  predicate CleanRun(cfg: Config, outcome: Outcome) {
    cfg.startHeight <= 1 && !cfg.dryRun && cfg.batchSize > 0 && outcome.Finished? && outcome.result.totalFailed == 0
  }

  /**
   A run without failures leaves the whole range in the database, except exactly where a height had been
   listed without being there: the backfill never attempts such a height.
   */
  lemma CleanRunCovers(before: set<nat>, listed: set<nat>, blocks: set<nat>, n: nat, tried: seq<nat>, r: Result)
    requires Backfill.Complete(before, listed + blocks, 1, n, tried, r) && Accounted(before, listed + blocks, 1, n, tried, r)
    requires r.totalFailed == 0 && before <= listed <= before + blocks
    ensures Covered(blocks, 1, n) <==> forall h :: 1 <= h <= n && h in before ==> h in blocks
  {
    forall h | 1 <= h <= n && (h in before ==> h in blocks) ensures h in blocks {
      assert h !in r.errors;
    }
  }

  /** With heights 1 to n in the blocks table, for any n, the chain's own tables show the chain at n. */
  ghost predicate OwnShown(chain: Chain, t: TableSet, log: seq<Delivery>, blocks: set<nat>) {
    forall n: nat :: Covered(blocks, 1, n) ==> Shown(chain, t, log, n)
  }

  /** For any n the latest views read what was written since the triggers were installed, after those of an earlier log. */
  ghost predicate ViewsShown(chain: Chain, t: TableSet, earlier: seq<Delivery>, g: Globals, log: seq<Delivery>) {
    forall n: nat :: GlobalsShown(chain, t, ReplayAll(chain, earlier), g, log, n)
  }

  lemma OwnIsShown(chain: Chain, log: seq<Delivery>)
    requires WellFormed(chain)
    ensures OwnShown(chain, ReplayAll(chain, log), log, Heights(log))
  {
    forall n: nat | Covered(Heights(log), 1, n) ensures Shown(chain, ReplayAll(chain, log), log, n) {
      CoveredIsShown(chain, log, n);
    }
  }

  lemma ViewsAreShown(chain: Chain, earlier: seq<Delivery>, since: seq<Delivery>)
    requires WellFormed(chain)
    ensures ViewsShown(chain, ReplayAll(chain, earlier + since), earlier, GlobalAll(chain, earlier, since), earlier + since)
  {
    forall n: nat
      ensures GlobalsShown(chain, ReplayAll(chain, earlier + since), ReplayAll(chain, earlier), GlobalAll(chain, earlier, since), earlier + since, n)
    {
      GlobalsAreShown(chain, earlier, since, n);
    }
  }

  lemma ShownAt(chain: Chain, t: TableSet, log: seq<Delivery>, blocks: set<nat>, n: nat)
    requires OwnShown(chain, t, log, blocks) && Covered(blocks, 1, n)
    ensures Shown(chain, t, log, n)
  {
  }

  /** Whatever was called on the database before. */
  lemma DatabaseShows(db: ChainDb)
    requires db.Valid() && WellFormed(db.node)
    ensures OwnShown(db.node, db.db.tables, db.log, db.blocks)
    ensures db.Synced() ==> ViewsShown(db.node, db.db.tables, db.earlier, db.db.globals, db.log)
  {
    db.TablesAreReplayed();
    db.BlocksAreCommitted();
    OwnIsShown(db.node, db.log);
    if db.Synced() {
      db.GlobalsAreReplayed();
      ViewsAreShown(db.node, db.earlier, db.since);
    }
  }

  /** A clean run leaves heights 1 to the end in the blocks table, unless one was listed before without being there. */
  ghost predicate RunCovers(cfg: Config, head: Option<nat>, outcome: Outcome, listed: set<nat>, blocks: set<nat>) {
    CleanRun(cfg, outcome) ==>
      && (cfg.endHeight == 0 ==> head.Some?)
      && var n := if cfg.endHeight == 0 then head.value else cfg.endHeight;
         (Covered(blocks, 1, n) <==> forall h :: 1 <= h <= n && h in listed ==> h in blocks)
  }

  method RunOnce(db: ChainDb, w: nat, cfg: Config, head: Option<nat>, env: Environment) returns (outcome: Outcome)
    requires db.Valid() && PlaceOf(db.workers, w) == Idle
    modifies db
    ensures db.Valid() && PlaceOf(db.workers, w) == Idle && db.Grew()
    ensures RunCovers(cfg, head, outcome, old(db.listed), db.blocks)
  {
    ghost var tried;
    outcome, tried := Run(db, w, cfg, head, env);
    if CleanRun(cfg, outcome) {
      ghost var n := if cfg.endHeight == 0 then head.value else cfg.endHeight;
      CleanRunCovers(old(db.listed), db.listed, db.blocks, n, tried, outcome.result);
    }
  }

  /**
   End to end: a clean backfill of [1, n], whatever was indexed before and whatever other workers added
   meanwhile. The chain's own tables show the chain at n, unless a height was listed that was not there, and the
   latest views of the global rows read what was written since the triggers were installed.
   */
  method BackfillShowsChain(db: ChainDb, w: nat, cfg: Config, head: Option<nat>, env: Environment) returns (outcome: Outcome)
    requires db.Valid() && PlaceOf(db.workers, w) == Idle && WellFormed(db.node)
    modifies db
    ensures db.Valid() && PlaceOf(db.workers, w) == Idle && db.Grew()
    ensures RunCovers(cfg, head, outcome, old(db.listed), db.blocks)
    ensures OwnShown(db.node, db.db.tables, db.log, db.blocks)
    ensures old(db.Synced()) ==> ViewsShown(db.node, db.db.tables, db.earlier, db.db.globals, db.log)
  {
    outcome := RunOnce(db, w, cfg, head, env);
    DatabaseShows(db);
  }

  method RunAfterPause(db: ChainDb, w: nat, cfg: Config, head: Option<nat>, env: Environment) returns (outcome: Outcome)
    requires db.Valid() && PlaceOf(db.workers, w) == Idle
    modifies db
    ensures db.Valid() && db.Synced() && db.earlier == old(db.log)
    ensures RunCovers(cfg, head, outcome, {}, db.blocks)
  {
    db.RemoveChainSync();
    var ok := db.SetupChainSync(false);
    outcome := RunOnce(db, w, cfg, head, env);
  }

  /**
   A chain that was paused and is active again: the triggers are dropped with the global rows, and installed
   again on tables that hold rows already. A clean backfill then finds every height unlisted, skips those that
   are there, and the latest views lack exactly the keys whose newest row is from before the pause.
   */
  method BackfillAfterPause(db: ChainDb, w: nat, cfg: Config, head: Option<nat>, env: Environment) returns (outcome: Outcome)
    requires db.Valid() && PlaceOf(db.workers, w) == Idle && WellFormed(db.node)
    modifies db
    ensures db.Valid()
    ensures CleanRun(cfg, outcome) && cfg.endHeight == 0 ==> head.Some?
    ensures CleanRun(cfg, outcome) ==>
              var n := if cfg.endHeight == 0 then head.value else cfg.endHeight;
              Covered(db.blocks, 1, n) && Shown(db.node, db.db.tables, db.log, n)
    ensures ViewsShown(db.node, db.db.tables, old(db.log), db.db.globals, db.log)
  {
    outcome := RunAfterPause(db, w, cfg, head, env);
    DatabaseShows(db);
    if CleanRun(cfg, outcome) {
      ghost var n := if cfg.endHeight == 0 then head.value else cfg.endHeight;
      ShownAt(db.node, db.db.tables, db.log, db.blocks, n);
    }
  }
}
