/** Change detection for accounts, sell orders, committees and supply. */
module Snapshots {
  import opened Encoding
  import opened Tables
  import opened ChangeDetection
  import opened Chain

  // ================================================================ accounts

  datatype AccountRow = AccountRow(amount: U64, rewards: U64, slashes: U64)

  function ToAccountRow(a: Account): AccountRow { AccountRow(a.amount, 0, 0) }

  function AccountEntry(a: Account): (string, AccountRow) { (Hex(a.address), ToAccountRow(a)) }

  predicate SameAccount(cur: AccountRow, prev: AccountRow) { cur.amount == prev.amount }

  function AccountHistory(chain: Chain): nat -> seq<(string, AccountRow)> {
    (h: nat) => Map(AccountEntry, chain(h).accounts)
  }

  ghost function AccountFeed(chain: Chain): Feed<string, AccountRow> {
    SnapshotFeed(AccountHistory(chain), Never(), SameAccount)
  }

  /** The lookup map of the previous state. */
  method IndexPreviousAccounts(previous: seq<Account>) returns (prevMap: map<string, Account>)
    ensures Mirrors(prevMap, Collect(Map(AccountEntry, previous)), ToAccountRow)
  {
    prevMap := map[];
    for i := 0 to |previous|
      invariant Mirrors(prevMap, Collect(Map(AccountEntry, previous[..i])), ToAccountRow)
    {
      IndexStep(prevMap, AccountEntry, ToAccountRow, previous, i);
      prevMap := prevMap[Hex(previous[i].address) := previous[i]];
    }
    assert previous[..|previous|] == previous;
  }

  /** The accounts that are new or whose amount changed, as rows. */
  ghost function AccountRows(current: seq<Account>, before: map<string, AccountRow>): seq<(string, AccountRow)> {
    Emit(Map(AccountEntry, current), before, {}, SameAccount)
  }

  lemma AccountStep(current: seq<Account>, i: nat, before: map<string, AccountRow>, prevMap: map<string, Account>)
    requires i < |current| && Mirrors(prevMap, before, ToAccountRow)
    ensures var a := current[i];
            AccountRows(current[..i + 1], before) == AccountRows(current[..i], before) +
            if Hex(a.address) !in prevMap || a.amount != prevMap[Hex(a.address)].amount then [AccountEntry(a)] else []
  {
    EmitStep(AccountEntry, current, i, before, SameAccount);
  }

  method ConvertAccounts(current: seq<Account>, previous: seq<Account>) returns (results: seq<(string, AccountRow)>)
    ensures results == AccountRows(current, Collect(Map(AccountEntry, previous)))
  {
    var prevMap := IndexPreviousAccounts(previous);
    ghost var before := Collect(Map(AccountEntry, previous));

    results := [];
    for i := 0 to |current|
      invariant results == AccountRows(current[..i], before)
    {
      var curr := current[i];
      var address := Hex(curr.address);
      var changed := false;
      if address !in prevMap {
        changed := true;
      } else if curr.amount != prevMap[address].amount {
        changed := true;
      }
      AccountStep(current, i, before, prevMap);
      if changed {
        results := results + [AccountEntry(curr)];
      }
    }
    assert current[..|current|] == current;
  }

  ghost predicate DistinctAccounts(chain: Chain) {
    forall h: nat, i, j :: 0 <= i < j < |chain(h).accounts| ==> chain(h).accounts[i].address != chain(h).accounts[j].address
  }

  lemma AccountKeysDistinct(chain: Chain)
    requires DistinctAccounts(chain)
    ensures DistinctHistory(AccountHistory(chain))
  {
    forall h: nat
      ensures DistinctKeys(AccountHistory(chain)(h))
    {
      forall i, j | 0 <= i < j < |chain(h).accounts|
        ensures AccountEntry(chain(h).accounts[i]).0 != AccountEntry(chain(h).accounts[j]).0
      {
        HexInjective(chain(h).accounts[i].address, chain(h).accounts[j].address);
      }
      MapDistinct(AccountEntry, chain(h).accounts);
    }
  }

  /** A block leaves a row for an account that is new or holds another amount than before, and the row holds the amount. */
  lemma AccountRowAt(chain: Chain, log: seq<Delivery>, m: nat, a: Account)
    requires DistinctAccounts(chain) && a in chain(m).accounts
    ensures var t, k := Replay(AccountFeed(chain), log), (Hex(a.address), m);
            && (k in t <==> WrittenAt(log, m, m == 0 || forall p :: p in chain(m - 1).accounts && p.address == a.address ==>
                                                            p.amount != a.amount))
            && (k in t ==> t[k] == AccountRow(a.amount, 0, 0))
  {
    AccountKeysDistinct(chain);
    var was := if m > 0 then chain(m - 1).accounts else [];
    forall p: Account ensures Hex(p.address) == Hex(a.address) <==> p.address == a.address {
      HexInjective(p.address, a.address);
    }
    RowAt(AccountHistory(chain), AccountEntry, chain(m).accounts, was, Never(), SameAccount, log, m, a);
  }

  /** The account's row as of h carries its balance at h. */
  lemma AccountsAsOf(chain: Chain, log: seq<Delivery>, h: nat, a: Account)
    requires DistinctAccounts(chain) && IndexedThrough(log, h)
    requires a in chain(h).accounts
    ensures var row := AsOf(Replay(AccountFeed(chain), log), Hex(a.address), h);
            && (row.None? <==> Dormant(AccountHistory(chain), Never(), SameAccount, log, Hex(a.address), h))
            && (row.Some? ==> row.value == AccountRow(a.amount, 0, 0))
  {
    AccountKeysDistinct(chain);
    var k, history := Hex(a.address), AccountHistory(chain);
    assert DistinctKeys(history(h));
    MapMember(AccountEntry, chain(h).accounts, a);
    forall g: nat | k in Collect(history(g))
      ensures Collect(history(g))[k] == AccountRow(Collect(history(g))[k].amount, 0, 0)
    {
      var b := MapOrigin(AccountEntry, chain(g).accounts, k);
    }
    SnapshotAsOf(history, Never(), SameAccount, (r: AccountRow) => r, log, k, h);
  }

  ghost function WithPreviousUpTo(n: nat): seq<Delivery> {
    if n == 0 then [] else WithPreviousUpTo(n - 1) + [Delivery(n, true)]
  }

  lemma {:induction false} AllDeliveredUpTo(n: nat)
    ensures IndexedThrough(WithPreviousUpTo(n), n)
    ensures forall d :: d in WithPreviousUpTo(n) ==> d.HasPrevious()
  {
    if n > 0 {
      AllDeliveredUpTo(n - 1);
      forall i | 1 <= i <= n ensures Indexed(WithPreviousUpTo(n), i) {
        if i == n {
          assert Delivery(n, true) in WithPreviousUpTo(n);
        } else {
          assert Indexed(WithPreviousUpTo(n - 1), i);
          var d :| d in WithPreviousUpTo(n - 1) && d.height == i;
          assert d in WithPreviousUpTo(n);
        }
      }
    }
  }

  /** A chain on which one account is all there ever is. */
  function StillChain(a: Account): Chain {
    (h: nat) => NOTHING.(accounts := [a])
  }

  lemma StillAccount(a: Account, h: nat)
    ensures var c := Collect(AccountHistory(StillChain(a))(h));
            Hex(a.address) in c && c[Hex(a.address)] == ToAccountRow(a)
  {
    assert Map(AccountEntry, [a]) == [] + [AccountEntry(a)];
    CollectSnoc([], AccountEntry(a));
  }

  /** An account funded before height 1 that never moves: with its previous state, block 1 writes no row for it, nor does any later one. */
  lemma GenesisAccountHasNoRow(a: Account, n: nat) returns (log: seq<Delivery>)
    requires n > 0
    ensures DistinctAccounts(StillChain(a)) && a in StillChain(a)(n).accounts && IndexedThrough(log, n)
    ensures AsOf(Replay(AccountFeed(StillChain(a)), log), Hex(a.address), n).None?
  {
    log := WithPreviousUpTo(n);
    AllDeliveredUpTo(n);
    forall d | d in log
      ensures Quiet(AccountHistory(StillChain(a)), Never(), SameAccount, d, Hex(a.address))
    {
      StillAccount(a, d.height);
      StillAccount(a, d.height - 1);
    }
    AccountsAsOf(StillChain(a), log, n, a);
  }

  // ================================================================ sell orders

  datatype OrderStatus = Open | Locked

  datatype OrderRow = OrderRow(committee: nat, data: string, amountForSale: U64, requestedAmount: U64,
                               sellerReceiveAddress: string, buyerSendAddress: string, buyerReceiveAddress: string,
                               buyerChainDeadline: U64, sellersSendAddress: string, status: OrderStatus)

  function DetermineOrderStatus(o: SellOrder): OrderStatus {
    if |o.buyerSendAddress| > 0 && |o.buyerReceiveAddress| > 0 then Locked else Open
  }

  function ToOrderRow(o: SellOrder): OrderRow {
    OrderRow(o.committee % 0x1_0000, Hex(o.data), o.amountForSale, o.requestedAmount, Hex(o.sellerReceiveAddress),
             Hex(o.buyerSendAddress), Hex(o.buyerReceiveAddress), o.buyerChainDeadline, Hex(o.sellersSendAddress),
             DetermineOrderStatus(o))
  }

  function OrderEntry(o: SellOrder): (string, OrderRow) { (Hex(o.id), ToOrderRow(o)) }

  predicate SameOrder(cur: OrderRow, prev: OrderRow) {
    && cur.amountForSale == prev.amountForSale
    && cur.requestedAmount == prev.requestedAmount
    && cur.buyerChainDeadline == prev.buyerChainDeadline
    && cur.buyerSendAddress == prev.buyerSendAddress
    && cur.buyerReceiveAddress == prev.buyerReceiveAddress
  }

  function OrderHistory(chain: Chain): nat -> seq<(string, OrderRow)> {
    (h: nat) => Map(OrderEntry, chain(h).orders)
  }

  ghost function OrderFeed(chain: Chain): Feed<string, OrderRow> {
    SnapshotFeed(OrderHistory(chain), Never(), SameOrder)
  }

  /** The lookup map of the previous state. */
  method IndexPreviousOrders(previous: seq<SellOrder>) returns (prevMap: map<string, SellOrder>)
    ensures Mirrors(prevMap, Collect(Map(OrderEntry, previous)), ToOrderRow)
  {
    prevMap := map[];
    for i := 0 to |previous|
      invariant Mirrors(prevMap, Collect(Map(OrderEntry, previous[..i])), ToOrderRow)
    {
      IndexStep(prevMap, OrderEntry, ToOrderRow, previous, i);
      prevMap := prevMap[Hex(previous[i].id) := previous[i]];
    }
    assert previous[..|previous|] == previous;
  }

  /** The orders that are new or whose compared columns changed, as rows. */
  ghost function OrderRows(current: seq<SellOrder>, before: map<string, OrderRow>): seq<(string, OrderRow)> {
    Emit(Map(OrderEntry, current), before, {}, SameOrder)
  }

  lemma OrderStep(current: seq<SellOrder>, i: nat, before: map<string, OrderRow>, prevMap: map<string, SellOrder>)
    requires i < |current| && Mirrors(prevMap, before, ToOrderRow)
    ensures var o := current[i];
            OrderRows(current[..i + 1], before) == OrderRows(current[..i], before) +
            if Hex(o.id) !in prevMap || !SameOrder(ToOrderRow(o), ToOrderRow(prevMap[Hex(o.id)])) then [OrderEntry(o)] else []
  {
    EmitStep(OrderEntry, current, i, before, SameOrder);
  }

  method ConvertOrders(current: seq<SellOrder>, previous: seq<SellOrder>) returns (results: seq<(string, OrderRow)>)
    ensures results == OrderRows(current, Collect(Map(OrderEntry, previous)))
  {
    var prevMap := IndexPreviousOrders(previous);
    ghost var before := Collect(Map(OrderEntry, previous));

    results := [];
    for i := 0 to |current|
      invariant results == OrderRows(current[..i], before)
    {
      var curr := current[i];
      var idHex := Hex(curr.id);
      var changed := false;
      if idHex !in prevMap {
        changed := true;
      } else {
        var prev := prevMap[idHex];
        if curr.amountForSale != prev.amountForSale || curr.requestedAmount != prev.requestedAmount ||
           curr.buyerChainDeadline != prev.buyerChainDeadline ||
           Hex(curr.buyerSendAddress) != Hex(prev.buyerSendAddress) ||
           Hex(curr.buyerReceiveAddress) != Hex(prev.buyerReceiveAddress)
        {
          changed := true;
        }
      }
      OrderStep(current, i, before, prevMap);
      if changed {
        results := results + [OrderEntry(curr)];
      }
    }
    assert current[..|current|] == current;
  }

  ghost predicate DistinctOrders(chain: Chain) {
    forall h: nat, i, j :: 0 <= i < j < |chain(h).orders| ==> chain(h).orders[i].id != chain(h).orders[j].id
  }

  lemma OrderKeysDistinct(chain: Chain)
    requires DistinctOrders(chain)
    ensures DistinctHistory(OrderHistory(chain))
  {
    forall h: nat
      ensures DistinctKeys(OrderHistory(chain)(h))
    {
      forall i, j | 0 <= i < j < |chain(h).orders|
        ensures OrderEntry(chain(h).orders[i]).0 != OrderEntry(chain(h).orders[j]).0
      {
        HexInjective(chain(h).orders[i].id, chain(h).orders[j].id);
      }
      MapDistinct(OrderEntry, chain(h).orders);
    }
  }

  /** The columns that are compared, as a reader finds them; the order is locked once it has both buyer addresses. */
  predicate ShowsOrder(o: SellOrder, r: OrderRow) {
    && r.amountForSale == o.amountForSale && r.requestedAmount == o.requestedAmount && r.buyerChainDeadline == o.buyerChainDeadline
    && r.buyerSendAddress == Hex(o.buyerSendAddress) && r.buyerReceiveAddress == Hex(o.buyerReceiveAddress)
    && (r.status == Locked <==> o.buyerSendAddress != [] && o.buyerReceiveAddress != [])
  }

  /** The columns that are only written, as the order had them at the height of the row. */
  predicate ShowsOrderWritten(o: SellOrder, r: OrderRow) {
    && r.committee == o.committee % 0x1_0000 && r.data == Hex(o.data)
    && r.sellerReceiveAddress == Hex(o.sellerReceiveAddress) && r.sellersSendAddress == Hex(o.sellersSendAddress)
  }

  /** A block leaves a row for an order that is new or differs in one of five columns. */
  lemma OrderRowAt(chain: Chain, log: seq<Delivery>, m: nat, o: SellOrder)
    requires DistinctOrders(chain) && o in chain(m).orders
    ensures var t, k := Replay(OrderFeed(chain), log), (Hex(o.id), m);
            && (k in t <==> WrittenAt(log, m, m == 0 || forall p :: p in chain(m - 1).orders && p.id == o.id ==>
                  p.amountForSale != o.amountForSale || p.requestedAmount != o.requestedAmount ||
                  p.buyerChainDeadline != o.buyerChainDeadline || p.buyerSendAddress != o.buyerSendAddress ||
                  p.buyerReceiveAddress != o.buyerReceiveAddress))
            && (k in t ==> ShowsOrder(o, t[k]) && ShowsOrderWritten(o, t[k]))
  {
    OrderKeysDistinct(chain);
    var was := if m > 0 then chain(m - 1).orders else [];
    forall p: SellOrder
      ensures Hex(p.id) == Hex(o.id) <==> p.id == o.id
      ensures Hex(p.buyerSendAddress) == Hex(o.buyerSendAddress) <==> p.buyerSendAddress == o.buyerSendAddress
      ensures Hex(p.buyerReceiveAddress) == Hex(o.buyerReceiveAddress) <==> p.buyerReceiveAddress == o.buyerReceiveAddress
    {
      HexInjective(p.id, o.id);
      HexInjective(p.buyerSendAddress, o.buyerSendAddress);
      HexInjective(p.buyerReceiveAddress, o.buyerReceiveAddress);
    }
    RowAt(OrderHistory(chain), OrderEntry, chain(m).orders, was, Never(), SameOrder, log, m, o);
  }

  /** The columns of an order that are compared, and the status derived from them. */
  function OrderCompared(r: OrderRow): (U64, U64, U64, string, string, OrderStatus) {
    (r.amountForSale, r.requestedAmount, r.buyerChainDeadline, r.buyerSendAddress, r.buyerReceiveAddress, r.status)
  }

  /** The status is not compared, yet it cannot go stale: it follows from the compared addresses. */
  lemma OrderStatusNoticed(chain: Chain, k: string)
    ensures Notices(OrderHistory(chain), SameOrder, OrderCompared, k)
  {
    var history := OrderHistory(chain);
    forall i: nat | k in Collect(history(i))
      ensures var r := Collect(history(i))[k];
              r.status == Locked <==> r.buyerSendAddress != "" && r.buyerReceiveAddress != ""
    {
      var o := MapOrigin(OrderEntry, chain(i).orders, k);
      HexEmpty(o.buyerSendAddress);
      HexEmpty(o.buyerReceiveAddress);
    }
  }

  /** The order's row as of h carries its amounts, deadline, buyer and status at h. */
  lemma OrdersAsOf(chain: Chain, log: seq<Delivery>, h: nat, o: SellOrder)
    requires DistinctOrders(chain) && IndexedThrough(log, h)
    requires o in chain(h).orders
    ensures var row := AsOf(Replay(OrderFeed(chain), log), Hex(o.id), h);
            && (row.None? <==> Dormant(OrderHistory(chain), Never(), SameOrder, log, Hex(o.id), h))
            && (row.Some? ==> ShowsOrder(o, row.value))
  {
    OrderKeysDistinct(chain);
    assert DistinctKeys(OrderHistory(chain)(h));
    MapMember(OrderEntry, chain(h).orders, o);
    OrderStatusNoticed(chain, Hex(o.id));
    SnapshotAsOf(OrderHistory(chain), Never(), SameOrder, OrderCompared, log, Hex(o.id), h);
  }

  // ================================================================ committees

  /** The chain_id column holds sixteen bits of the committee's id. */
  datatype CommitteeRow = CommitteeRow(chainId: nat, lastRootHeightUpdated: U64, lastChainHeightUpdated: U64,
                                       numberOfSamples: U64)

  function ToCommitteeRow(c: CommitteeData): CommitteeRow {
    CommitteeRow(c.chainId % 0x1_0000, c.lastRootHeightUpdated, c.lastChainHeightUpdated, c.numberOfSamples)
  }

  function CommitteeEntry(c: CommitteeData): (nat, CommitteeRow) { (c.chainId, ToCommitteeRow(c)) }

  function CommitteeColumn(r: CommitteeRow): nat { r.chainId }

  predicate SameCommittee(cur: CommitteeRow, prev: CommitteeRow) {
    && cur.lastRootHeightUpdated == prev.lastRootHeightUpdated
    && cur.lastChainHeightUpdated == prev.lastChainHeightUpdated
    && cur.numberOfSamples == prev.numberOfSamples
  }

  function CommitteeHistory(chain: Chain): nat -> seq<(nat, CommitteeRow)> {
    (h: nat) => Map(CommitteeEntry, chain(h).committees)
  }

  ghost function CommitteeFeed(chain: Chain): Feed<nat, CommitteeRow> {
    (d: Delivery) => Rekey(CommitteeColumn, SnapshotFeed(CommitteeHistory(chain), Never(), SameCommittee)(d))
  }

  /** The lookup map of the previous state. */
  method IndexPreviousCommittees(previous: seq<CommitteeData>) returns (prevMap: map<nat, CommitteeData>)
    ensures Mirrors(prevMap, Collect(Map(CommitteeEntry, previous)), ToCommitteeRow)
  {
    prevMap := map[];
    for i := 0 to |previous|
      invariant Mirrors(prevMap, Collect(Map(CommitteeEntry, previous[..i])), ToCommitteeRow)
    {
      IndexStep(prevMap, CommitteeEntry, ToCommitteeRow, previous, i);
      prevMap := prevMap[previous[i].chainId as nat := previous[i]];
    }
    assert previous[..|previous|] == previous;
  }

  /** The committees that are new or whose progress changed, as rows. */
  ghost function CommitteeRows(current: seq<CommitteeData>, before: map<nat, CommitteeRow>): seq<(nat, CommitteeRow)> {
    Emit(Map(CommitteeEntry, current), before, {}, SameCommittee)
  }

  lemma CommitteeStep(current: seq<CommitteeData>, i: nat, before: map<nat, CommitteeRow>, prevMap: map<nat, CommitteeData>)
    requires i < |current| && Mirrors(prevMap, before, ToCommitteeRow)
    ensures var c := current[i];
            CommitteeRows(current[..i + 1], before) == CommitteeRows(current[..i], before) +
            if c.chainId !in prevMap || !SameCommittee(ToCommitteeRow(c), ToCommitteeRow(prevMap[c.chainId as nat]))
            then [CommitteeEntry(c)] else []
  {
    EmitStep(CommitteeEntry, current, i, before, SameCommittee);
  }

  method ConvertCommittees(current: seq<CommitteeData>, previous: seq<CommitteeData>) returns (results: seq<(nat, CommitteeRow)>)
    ensures results == CommitteeRows(current, Collect(Map(CommitteeEntry, previous)))
  {
    var prevMap := IndexPreviousCommittees(previous);
    ghost var before := Collect(Map(CommitteeEntry, previous));

    results := [];
    for i := 0 to |current|
      invariant results == CommitteeRows(current[..i], before)
    {
      var curr := current[i];
      var changed := false;
      if curr.chainId !in prevMap {
        changed := true;
      } else {
        var prev := prevMap[curr.chainId];
        if curr.lastRootHeightUpdated != prev.lastRootHeightUpdated ||
           curr.lastChainHeightUpdated != prev.lastChainHeightUpdated ||
           curr.numberOfSamples != prev.numberOfSamples
        {
          changed := true;
        }
      }
      CommitteeStep(current, i, before, prevMap);
      if changed {
        results := results + [CommitteeEntry(curr)];
      }
    }
    assert current[..|current|] == current;
  }

  ghost predicate CommitteesFit(chain: Chain) {
    forall h: nat, c :: c in chain(h).committees ==> c.chainId < TWO16
  }

  ghost predicate DistinctCommittees(chain: Chain) {
    forall h: nat, i, j :: 0 <= i < j < |chain(h).committees| ==> chain(h).committees[i].chainId != chain(h).committees[j].chainId
  }

  lemma CommitteesStoredWhole(chain: Chain, d: Delivery)
    requires CommitteesFit(chain)
    ensures CommitteeFeed(chain)(d) == SnapshotFeed(CommitteeHistory(chain), Never(), SameCommittee)(d)
  {
    var cur := CommitteeHistory(chain)(d.height);
    forall x | x in cur
      ensures CommitteeColumn(x.1) == x.0
    {
      var i :| 0 <= i < |cur| && cur[i] == x;
      assert chain(d.height).committees[i] in chain(d.height).committees;
    }
    RekeyEmit(CommitteeColumn, cur, PreviousState(CommitteeHistory(chain), d), Never()(d.height), SameCommittee);
  }

  lemma CommitteeKeysDistinct(chain: Chain)
    requires DistinctCommittees(chain)
    ensures DistinctHistory(CommitteeHistory(chain))
  {
    forall g: nat ensures DistinctKeys(CommitteeHistory(chain)(g)) {
      MapDistinct(CommitteeEntry, chain(g).committees);
    }
  }

  /** All deliveries agree on the committee rows. */
  lemma CommitteeFeedAgrees(chain: Chain, log: seq<Delivery>)
    requires DistinctCommittees(chain) && CommitteesFit(chain)
    ensures Agree(CommitteeFeed(chain), log)
  {
    CommitteeKeysDistinct(chain);
    forall d: Delivery {
      CommitteesStoredWhole(chain, d);
    }
    SnapshotFeedAgrees(CommitteeHistory(chain), Never(), SameCommittee, log);
    SameFeedAgrees(CommitteeFeed(chain), SnapshotFeed(CommitteeHistory(chain), Never(), SameCommittee), log);
  }

  predicate ShowsCommittee(c: CommitteeData, r: CommitteeRow) {
    && r.chainId == c.chainId && r.lastRootHeightUpdated == c.lastRootHeightUpdated
    && r.lastChainHeightUpdated == c.lastChainHeightUpdated && r.numberOfSamples == c.numberOfSamples
  }

  lemma CommitteesAreSnapshots(chain: Chain, log: seq<Delivery>)
    requires DistinctCommittees(chain) && CommitteesFit(chain)
    ensures Replay(CommitteeFeed(chain), log) == Replay(SnapshotFeed(CommitteeHistory(chain), Never(), SameCommittee), log)
    ensures DistinctHistory(CommitteeHistory(chain))
  {
    forall d: Delivery {
      CommitteesStoredWhole(chain, d);
    }
    SameFeedSameTable(CommitteeFeed(chain), SnapshotFeed(CommitteeHistory(chain), Never(), SameCommittee), log);
    CommitteeKeysDistinct(chain);
  }

  lemma CommitteeRowShows(c: CommitteeData)
    requires c.chainId < TWO16
    ensures ShowsCommittee(c, CommitteeEntry(c).1)
  {
  }

  /** The committee was there before, without progress since. */
  ghost predicate CommitteeStays(was: seq<CommitteeData>, c: CommitteeData) {
    exists p :: p in was && p.chainId == c.chainId && p.lastRootHeightUpdated == c.lastRootHeightUpdated &&
                p.lastChainHeightUpdated == c.lastChainHeightUpdated && p.numberOfSamples == c.numberOfSamples
  }

  lemma CommitteeStaysMeans(was: seq<CommitteeData>, c: CommitteeData)
    ensures Stays(CommitteeEntry, was, SameCommittee, c) <==> CommitteeStays(was, c)
  {
  }

  /** A block leaves a row for a committee that is new or made progress. */
  lemma CommitteeRowAt(chain: Chain, log: seq<Delivery>, m: nat, c: CommitteeData)
    requires DistinctCommittees(chain) && CommitteesFit(chain) && c in chain(m).committees
    ensures var t, k := Replay(CommitteeFeed(chain), log), (c.chainId as nat, m);
            && (k in t <==> WrittenAt(log, m, m == 0 || !CommitteeStays(chain(m - 1).committees, c)))
            && (k in t ==> ShowsCommittee(c, t[k]))
  {
    var was := if m > 0 then chain(m - 1).committees else [];
    CommitteesAreSnapshots(chain, log);
    RowAt(CommitteeHistory(chain), CommitteeEntry, chain(m).committees, was, Never(), SameCommittee, log, m, c);
    CommitteeStaysMeans(was, c);
    CommitteeRowShows(c);
  }

  /** The committee's row as of h carries its progress at h, as long as ids fit their column. */
  lemma CommitteesAsOf(chain: Chain, log: seq<Delivery>, h: nat, c: CommitteeData)
    requires DistinctCommittees(chain) && CommitteesFit(chain) && IndexedThrough(log, h)
    requires c in chain(h).committees
    ensures var row := AsOf(Replay(CommitteeFeed(chain), log), c.chainId, h);
            && (row.None? <==> Dormant(CommitteeHistory(chain), Never(), SameCommittee, log, c.chainId, h))
            && (row.Some? ==> ShowsCommittee(c, row.value))
  {
    var history := CommitteeHistory(chain);
    CommitteesAreSnapshots(chain, log);
    assert DistinctKeys(history(h));
    MapMember(CommitteeEntry, chain(h).committees, c);
    CommitteeIdsKept(chain, c.chainId);
    SnapshotAsOf(history, Never(), SameCommittee, (r: CommitteeRow) => r, log, c.chainId, h);
    CommitteeRowShows(c);
  }

  /** The comparison need not look at the id column: it is the same in all rows of one key. */
  lemma CommitteeIdsKept(chain: Chain, k: nat)
    ensures Notices(CommitteeHistory(chain), SameCommittee, (r: CommitteeRow) => r, k)
  {
    var history := CommitteeHistory(chain);
    forall g: nat | k in Collect(history(g)) ensures Collect(history(g))[k].chainId == k % 0x1_0000 {
      var b := MapOrigin(CommitteeEntry, chain(g).committees, k);
    }
  }

  /** The committee's row when it is written without anything to compare with. */
  ghost function FirstCommitteeRows(committees: seq<CommitteeData>): seq<(nat, CommitteeRow)> {
    Rekey(CommitteeColumn, CommitteeRows(committees, map[]))
  }

  /** The i-th committee is the last whose id is k modulo 65536. */
  ghost predicate IsLastModulo(committees: seq<CommitteeData>, k: nat, i: nat) {
    i < |committees| && committees[i].chainId % 0x1_0000 == k && forall j :: i < j < |committees| ==> committees[j].chainId % 0x1_0000 != k
  }

  lemma FirstCommitteeRowsSnoc(committees: seq<CommitteeData>, c: CommitteeData)
    ensures FirstCommitteeRows(committees + [c]) == FirstCommitteeRows(committees) + [(c.chainId % 0x1_0000 as nat, ToCommitteeRow(c))]
  {
    assert (committees + [c])[..|committees|] == committees;
    EmitSnoc(Map(CommitteeEntry, committees), CommitteeEntry(c), map[], {}, SameCommittee);
  }

  /**
   Two committees share a row exactly when their ids are equal modulo 65536, and then the later in the list
   overwrites the other: the row of a key is that of the last committee with such an id.
   */
  lemma {:induction false} CommitteeIdsCollide(committees: seq<CommitteeData>, k: nat)
    ensures var rows := Collect(FirstCommitteeRows(committees));
            && (k in rows <==> exists i: nat :: IsLastModulo(committees, k, i))
            && forall i: nat :: IsLastModulo(committees, k, i) ==> k in rows && rows[k] == ToCommitteeRow(committees[i])
  {
    if committees != [] {
      var n := |committees| - 1;
      var rest, c := committees[..n], committees[n];
      CommitteeIdsCollide(rest, k);
      assert committees == rest + [c];
      FirstCommitteeRowsSnoc(rest, c);
      CollectSnoc(FirstCommitteeRows(rest), (c.chainId % 0x1_0000 as nat, ToCommitteeRow(c)));
      forall i: nat ensures IsLastModulo(committees, k, i) <==> if c.chainId % 0x1_0000 == k then i == n else IsLastModulo(rest, k, i) {
        LastModuloSnoc(rest, c, k, i);
      }
      assert c.chainId % 0x1_0000 == k ==> IsLastModulo(committees, k, n);
    }
  }

  lemma LastModuloSnoc(rest: seq<CommitteeData>, c: CommitteeData, k: nat, i: nat)
    ensures IsLastModulo(rest + [c], k, i) <==> if c.chainId % 0x1_0000 == k then i == |rest| else IsLastModulo(rest, k, i)
  {
    var all := rest + [c];
    assert all[|rest|] == c && forall j :: 0 <= j < |rest| ==> all[j] == rest[j];
  }

  // ================================================================ supply

  datatype SupplyRow = SupplyRow(total: U64, staked: U64, delegatedOnly: U64)

  function SupplyEntries(s: Option<Supply>): (r: seq<((), SupplyRow)>)
    ensures DistinctKeys(r)
  {
    match s
    case None => []
    case Some(v) => [((), SupplyRow(v.total, v.staked, v.delegatedOnly))]
  }

  predicate SameSupply(cur: SupplyRow, prev: SupplyRow) { cur == prev }

  function SupplyHistory(chain: Chain): nat -> seq<((), SupplyRow)> {
    (h: nat) => SupplyEntries(chain(h).supply)
  }

  ghost function SupplyFeed(chain: Chain): Feed<(), SupplyRow> {
    SnapshotFeed(SupplyHistory(chain), Never(), SameSupply)
  }

  function ConvertSupply(current: Option<Supply>, previous: Option<Supply>): (results: seq<((), SupplyRow)>)
    ensures results == Emit(SupplyEntries(current), Collect(SupplyEntries(previous)), {}, SameSupply)
  {
    assert forall s :: Collect(SupplyEntries(Some(s))) == map[() := SupplyRow(s.total, s.staked, s.delegatedOnly)];
    match current
    case None => []
    case Some(c) =>
      assert SupplyEntries(current) == [] + [((), SupplyRow(c.total, c.staked, c.delegatedOnly))];
      match previous
      case None => SupplyEntries(current)
      case Some(p) =>
        if c.total != p.total || c.staked != p.staked || c.delegatedOnly != p.delegatedOnly
        then SupplyEntries(current)
        else []
  }

  lemma SupplyKeysDistinct(chain: Chain)
    ensures DistinctHistory(SupplyHistory(chain))
  {
    forall g: nat ensures DistinctKeys(SupplyHistory(chain)(g)) {
      assert SupplyHistory(chain)(g) == SupplyEntries(chain(g).supply);
    }
  }

  /** A block leaves a supply row when there was none before or one of its totals differs. */
  lemma SupplyRowAt(chain: Chain, log: seq<Delivery>, m: nat, s: Supply)
    requires chain(m).supply == Some(s)
    ensures var t, k := Replay(SupplyFeed(chain), log), ((), m);
            && (k in t <==> WrittenAt(log, m, m == 0 || chain(m - 1).supply.None? ||
                  var p := chain(m - 1).supply.value;
                  p.total != s.total || p.staked != s.staked || p.delegatedOnly != s.delegatedOnly))
            && (k in t ==> t[k] == SupplyRow(s.total, s.staked, s.delegatedOnly))
  {
    var entry := (v: Supply) => ((), SupplyRow(v.total, v.staked, v.delegatedOnly));
    var was := if m > 0 && chain(m - 1).supply.Some? then [chain(m - 1).supply.value] else [];
    SupplyKeysDistinct(chain);
    assert Map(entry, [s])[0] == entry(s);
    assert was != [] ==> Map(entry, was)[0] == entry(was[0]);
    RowAt(SupplyHistory(chain), entry, [s], was, Never(), SameSupply, log, m, s);
    assert Stays(entry, was, SameSupply, s) <==> was == [s];
  }

  /** The supply row as of h carries the totals at h. */
  lemma SupplyAsOf(chain: Chain, log: seq<Delivery>, h: nat, s: Supply)
    requires IndexedThrough(log, h) && chain(h).supply == Some(s)
    ensures var row := AsOf(Replay(SupplyFeed(chain), log), (), h);
            && (row.None? <==> Dormant(SupplyHistory(chain), Never(), SameSupply, log, (), h))
            && (row.Some? ==> row.value == SupplyRow(s.total, s.staked, s.delegatedOnly))
  {
    var history := SupplyHistory(chain);
    SupplyKeysDistinct(chain);
    CollectDistinct(history(h), 0);
    SnapshotAsOf(history, Never(), SameSupply, (r: SupplyRow) => r, log, (), h);
  }
}
