/** Change detection for DEX prices. */
module Prices {
  import opened Encoding
  import opened Tables
  import opened ChangeDetection
  import opened Chain
  import opened Deltas
  import opened Liquidity

  /** The columns of a price that follow from its current state; the chain ids are stored in sixteen bits. */
  datatype PriceState = PriceState(localChainId: nat, remoteChainId: nat, localPool: U64, remotePool: U64, priceE6: U64)

  datatype PriceRow = PriceRow(state: PriceState, priceDelta: int, localPoolDelta: int, remotePoolDelta: int)

  type Pair = (nat, nat)

  function ToPriceState(p: DexPrice): PriceState {
    PriceState(p.localChainId % 0x1_0000, p.remoteChainId % 0x1_0000, p.localPool, p.remotePool, p.e6ScaledPrice)
  }

  function PriceEntry(p: DexPrice): (Pair, PriceState) { ((p.localChainId, p.remoteChainId), ToPriceState(p)) }

  predicate SamePrice(cur: PriceState, prev: PriceState) {
    cur.priceE6 == prev.priceE6 && cur.localPool == prev.localPool && cur.remotePool == prev.remotePool
  }

  function WithPriceDeltas(s: PriceState, prev: Option<PriceState>): PriceRow {
    match prev
    case None => PriceRow(s, 0, 0, 0)
    case Some(p) => PriceRow(s, Delta(s.priceE6, p.priceE6, TWO64), Delta(s.localPool, p.localPool, TWO64),
                             Delta(s.remotePool, p.remotePool, TWO64))
  }

  function StateColumns(s: PriceState): Pair { (s.localChainId, s.remoteChainId) }

  function PriceColumns(r: PriceRow): Pair { StateColumns(r.state) }

  function LocalPoolDelta(r: PriceRow): int { r.localPoolDelta }

  function PriceE6Delta(r: PriceRow): int { r.priceDelta }

  function RemotePoolDelta(r: PriceRow): int { r.remotePoolDelta }

  function PriceHistory(chain: Chain): nat -> seq<(Pair, PriceState)> {
    (h: nat) => Map(PriceEntry, chain(h).dexPrices)
  }

  ghost function PriceFeed(chain: Chain): Feed<Pair, PriceRow> {
    (d: Delivery) => Rekey(PriceColumns, DecoratedFeed(PriceHistory(chain), SamePrice, WithPriceDeltas)(d))
  }

  /** The lookup table by printed key holds what c holds by pair. */
  ghost predicate IndexesPrices(m: map<string, DexPrice>, c: map<Pair, PriceState>) {
    forall l: nat, r: nat ::
      && (PriceKey(l, r) in m <==> (l, r) in c)
      && ((l, r) in c ==> c[(l, r)] == ToPriceState(m[PriceKey(l, r)]))
  }

  lemma IndexOnePrice(m: map<string, DexPrice>, c: map<Pair, PriceState>, price: DexPrice)
    requires IndexesPrices(m, c)
    ensures IndexesPrices(m[PriceKey(price.localChainId, price.remoteChainId) := price], c[PriceEntry(price).0 := PriceEntry(price).1])
  {
    forall l: nat, r: nat
      ensures PriceKey(l, r) == PriceKey(price.localChainId, price.remoteChainId) <==>
              (l, r) == (price.localChainId, price.remoteChainId)
    {
      PriceKeyInjective(l, r, price.localChainId, price.remoteChainId);
    }
  }

  method IndexPreviousPrices(previous: seq<DexPrice>) returns (prevMap: map<string, DexPrice>)
    ensures IndexesPrices(prevMap, Collect(Map(PriceEntry, previous)))
  {
    prevMap := map[];
    for i := 0 to |previous|
      invariant IndexesPrices(prevMap, Collect(Map(PriceEntry, previous[..i])))
    {
      var price := previous[i];
      MapStep(PriceEntry, previous, i);
      IndexOnePrice(prevMap, Collect(Map(PriceEntry, previous[..i])), price);
      prevMap := prevMap[PriceKey(price.localChainId, price.remoteChainId) := price];
    }
    assert previous[..|previous|] == previous;
  }

  ghost function PriceRows(current: seq<DexPrice>, before: map<Pair, PriceState>): seq<(Pair, PriceRow)> {
    Decorate(WithPriceDeltas, Emit(Map(PriceEntry, current), before, {}, SamePrice), before)
  }

  lemma PriceStep(current: seq<DexPrice>, i: nat, before: map<Pair, PriceState>, prevMap: map<string, DexPrice>)
    requires i < |current| && IndexesPrices(prevMap, before)
    ensures var curr := current[i];
            var key := PriceKey(curr.localChainId, curr.remoteChainId);
            var was := if key in prevMap then Some(ToPriceState(prevMap[key])) else None;
            PriceRows(current[..i + 1], before) == PriceRows(current[..i], before) +
              if was.None? || !SamePrice(ToPriceState(curr), was.value)
              then [(PriceEntry(curr).0, WithPriceDeltas(ToPriceState(curr), was))] else []
  {
    var x := PriceEntry(current[i]);
    assert PriceKey(x.0.0, x.0.1) in prevMap <==> x.0 in before;
    MapStep(PriceEntry, current, i);
    EmitSnoc(Map(PriceEntry, current[..i]), x, before, {}, SamePrice);
  }

  method ConvertDexPrices(current: seq<DexPrice>, previous: seq<DexPrice>) returns (results: seq<(Pair, PriceRow)>)
    ensures results == PriceRows(current, Collect(Map(PriceEntry, previous)))
  {
    var prevMap := IndexPreviousPrices(previous);
    ghost var before := Collect(Map(PriceEntry, previous));
    results := [];
    for i := 0 to |current|
      invariant results == PriceRows(current[..i], before)
    {
      var curr := current[i];
      var key := PriceKey(curr.localChainId, curr.remoteChainId);
      PriceStep(current, i, before, prevMap);
      if key !in prevMap {
        results := results + [(PriceEntry(curr).0, PriceRow(ToPriceState(curr), 0, 0, 0))];
      } else {
        var prev := prevMap[key];
        if curr.e6ScaledPrice != prev.e6ScaledPrice || curr.localPool != prev.localPool || curr.remotePool != prev.remotePool {
          results := results + [(PriceEntry(curr).0,
            PriceRow(ToPriceState(curr), Delta(curr.e6ScaledPrice, prev.e6ScaledPrice, TWO64),
                     Delta(curr.localPool, prev.localPool, TWO64), Delta(curr.remotePool, prev.remotePool, TWO64)))];
        }
      }
    }
    assert current[..|current|] == current;
  }

  ghost predicate PricesWellFormed(chain: Chain) {
    && (forall h: nat, p :: p in chain(h).dexPrices ==> p.localChainId < TWO16 && p.remoteChainId < TWO16)
    && (forall h: nat, i, j :: 0 <= i < j < |chain(h).dexPrices| ==>
          PriceEntry(chain(h).dexPrices[i]).0 != PriceEntry(chain(h).dexPrices[j]).0)
  }

  lemma PriceIdsFit(chain: Chain, g: nat)
    requires PricesWellFormed(chain)
    ensures var entries := Map(PriceEntry, chain(g).dexPrices);
            DistinctKeys(entries) && forall x :: x in entries ==> StateColumns(x.1) == x.0
  {
    var entries := Map(PriceEntry, chain(g).dexPrices);
    MapDistinct(PriceEntry, chain(g).dexPrices);
    forall x | x in entries ensures StateColumns(x.1) == x.0 {
      var i :| 0 <= i < |entries| && entries[i] == x;
      assert chain(g).dexPrices[i] in chain(g).dexPrices;
    }
  }

  lemma PriceFeedIsDecorated(chain: Chain)
    requires PricesWellFormed(chain)
    ensures DistinctHistory(PriceHistory(chain))
    ensures forall d :: PriceFeed(chain)(d) == DecoratedFeed(PriceHistory(chain), SamePrice, WithPriceDeltas)(d)
  {
    var history := PriceHistory(chain);
    forall g: nat
      ensures DistinctKeys(history(g)) && forall x :: x in history(g) ==> StateColumns(x.1) == x.0
    {
      PriceIdsFit(chain, g);
    }
    forall d: Delivery
      ensures PriceFeed(chain)(d) == DecoratedFeed(history, SamePrice, WithPriceDeltas)(d)
    {
      StoredWhole(history, SamePrice, WithPriceDeltas, StateColumns, PriceColumns, d);
    }
  }

  lemma PricesStoredWhole(chain: Chain, log: seq<Delivery>)
    requires PricesWellFormed(chain)
    ensures DistinctHistory(PriceHistory(chain))
    ensures Replay(PriceFeed(chain), log) == Replay(DecoratedFeed(PriceHistory(chain), SamePrice, WithPriceDeltas), log)
  {
    PriceFeedIsDecorated(chain);
    SameFeedSameTable(PriceFeed(chain), DecoratedFeed(PriceHistory(chain), SamePrice, WithPriceDeltas), log);
  }

  // Heights delivered with and without the state before them: deltas may differ, prices and pool sizes do not.

  ghost predicate PriceDeltasSettled(chain: Chain, log: seq<Delivery>) {
    DeltasSettled(PriceHistory(chain), SamePrice, log)
  }

  lemma PriceDeltasDetect(cur: PriceState, prev: PriceState)
    ensures WithPriceDeltas(cur, Some(prev)) == WithPriceDeltas(cur, None) <==> SamePrice(cur, prev)
  {
    DeltaLeads(cur.priceE6, prev.priceE6, TWO64);
    DeltaLeads(cur.localPool, prev.localPool, TWO64);
    DeltaLeads(cur.remotePool, prev.remotePool, TWO64);
  }

  /** All deliveries agree on the price rows exactly when no height that came both ways saw a pair change. */
  lemma PriceFeedAgreesExactly(chain: Chain, log: seq<Delivery>)
    requires PricesWellFormed(chain)
    ensures Agree(PriceFeed(chain), log) <==> PriceDeltasSettled(chain, log)
  {
    PriceFeedIsDecorated(chain);
    SameFeedAgrees(PriceFeed(chain), DecoratedFeed(PriceHistory(chain), SamePrice, WithPriceDeltas), log);
    forall s, p | !SamePrice(s, p) ensures WithPriceDeltas(s, Some(p)) != WithPriceDeltas(s, None) {
      PriceDeltasDetect(s, p);
    }
    DecoratedAgreesExactly(PriceHistory(chain), SamePrice, WithPriceDeltas, log);
  }

  /** Without the delta columns the price table does not depend on the order of deliveries. */
  lemma PriceStatesOrderIndependent(chain: Chain, log: seq<Delivery>, other: seq<Delivery>)
    requires PricesWellFormed(chain) && SameDeliveries(log, other)
    ensures ProjectTable(PriceStateOf, Replay(PriceFeed(chain), log)) == ProjectTable(PriceStateOf, Replay(PriceFeed(chain), other))
  {
    PricesStoredWhole(chain, log);
    PricesStoredWhole(chain, other);
    PriceRowsKeepState();
    DecoratedStatesAgree(PriceHistory(chain), SamePrice, WithPriceDeltas, PriceStateOf, log);
    DecoratedStatesAgree(PriceHistory(chain), SamePrice, WithPriceDeltas, PriceStateOf, other);
    OrderIndependence(SnapshotFeed(PriceHistory(chain), Never(), SamePrice), log, other);
  }

  function PriceStateOf(r: PriceRow): PriceState { r.state }

  function PriceCompared(s: PriceState): (U64, U64, U64) { (s.priceE6, s.localPool, s.remotePool) }

  lemma PriceChangesNoticed(history: nat -> seq<(Pair, PriceState)>, k: Pair)
    ensures Notices(history, SamePrice, PriceCompared, k)
  {
  }

  lemma PriceRowsKeepState()
    ensures forall s, o :: PriceStateOf(WithPriceDeltas(s, o)) == s
  {
  }

  /** The pair was there before, with the same price and pool sizes. */
  ghost predicate PriceStays(was: seq<DexPrice>, p: DexPrice) {
    exists q :: q in was && q.localChainId == p.localChainId && q.remoteChainId == p.remoteChainId &&
                q.e6ScaledPrice == p.e6ScaledPrice && q.localPool == p.localPool && q.remotePool == p.remotePool
  }

  predicate ShowsPrice(p: DexPrice, s: PriceState) {
    && s.localChainId == p.localChainId && s.remoteChainId == p.remoteChainId
    && s.priceE6 == p.e6ScaledPrice && s.localPool == p.localPool && s.remotePool == p.remotePool
  }

  /** The deltas of a pair against the pair before it. */
  ghost predicate PriceLeads(q: DexPrice, p: DexPrice, r: PriceRow) {
    && Leads(q.e6ScaledPrice, p.e6ScaledPrice, r.priceDelta, 0x1_0000_0000_0000_0000)
    && Leads(q.localPool, p.localPool, r.localPoolDelta, 0x1_0000_0000_0000_0000)
    && Leads(q.remotePool, p.remotePool, r.remotePoolDelta, 0x1_0000_0000_0000_0000)
  }

  /** The delta columns are zero where there was nothing to compare with, and lead from the pair before to this one otherwise. */
  ghost predicate ShowsPriceDeltas(was: seq<DexPrice>, log: seq<Delivery>, m: nat, p: DexPrice, r: PriceRow) {
    || (r.priceDelta == r.localPoolDelta == r.remotePoolDelta == 0 &&
        WrittenAt(log, m, forall q :: q in was ==> q.localChainId != p.localChainId || q.remoteChainId != p.remoteChainId))
    || (m > 0 && Delivery(m, true) in log &&
        exists q :: q in was && q.localChainId == p.localChainId && q.remoteChainId == p.remoteChainId && PriceLeads(q, p, r))
  }

  lemma PriceDeltasLead(q: DexPrice, p: DexPrice)
    ensures PriceLeads(q, p, WithPriceDeltas(ToPriceState(p), Some(ToPriceState(q))))
  {
    DeltaLeads(p.e6ScaledPrice, q.e6ScaledPrice, TWO64);
    DeltaLeads(p.localPool, q.localPool, TWO64);
    DeltaLeads(p.remotePool, q.remotePool, TWO64);
  }

  lemma PriceStaysMeans(was: seq<DexPrice>, p: DexPrice)
    ensures Stays(PriceEntry, was, SamePrice, p) <==> PriceStays(was, p)
  {
  }

  lemma PriceStateShows(p: DexPrice)
    requires p.localChainId < TWO16 && p.remoteChainId < TWO16
    ensures ShowsPrice(p, PriceEntry(p).1)
  {
  }

  lemma PriceFresh(was: seq<DexPrice>, log: seq<Delivery>, m: nat, p: DexPrice)
    requires WrittenAt(log, m, forall q :: q in was ==> PriceEntry(q).0 != PriceEntry(p).0)
    ensures ShowsPriceDeltas(was, log, m, p, WithPriceDeltas(PriceEntry(p).1, None))
  {
    assert (forall q :: q in was ==> PriceEntry(q).0 != PriceEntry(p).0) ==
           (forall q :: q in was ==> q.localChainId != p.localChainId || q.remoteChainId != p.remoteChainId);
  }

  lemma PriceMoved(was: seq<DexPrice>, log: seq<Delivery>, m: nat, p: DexPrice, q: DexPrice)
    requires q in was && PriceEntry(q).0 == PriceEntry(p).0 && m > 0 && Delivery(m, true) in log
    ensures ShowsPriceDeltas(was, log, m, p, WithPriceDeltas(PriceEntry(p).1, Some(PriceEntry(q).1)))
  {
    PriceDeltasLead(q, p);
  }

  lemma PriceRowShows(was: seq<DexPrice>, log: seq<Delivery>, m: nat, p: DexPrice, r: PriceRow)
    requires p.localChainId < TWO16 && p.remoteChainId < TWO16 && DecoratedAs(PriceEntry, was, WithPriceDeltas, log, m, p, r)
    ensures ShowsPrice(p, r.state) && ShowsPriceDeltas(was, log, m, p, r)
  {
    PriceStateShows(p);
    if q :| q in was && PriceEntry(q).0 == PriceEntry(p).0 && m > 0 && Delivery(m, true) in log &&
            r == WithPriceDeltas(PriceEntry(p).1, Some(PriceEntry(q).1))
    {
      PriceMoved(was, log, m, p, q);
      PriceRowsKeepState();
    } else {
      PriceFresh(was, log, m, p);
    }
  }

  /** A block leaves a row for a pair that is new or changed, with every column of the pair and its deltas. */
  lemma PriceRowAt(chain: Chain, log: seq<Delivery>, m: nat, p: DexPrice)
    requires PricesWellFormed(chain) && p in chain(m).dexPrices
    ensures var t, k := Replay(PriceFeed(chain), log), ((p.localChainId as nat, p.remoteChainId as nat), m);
            && (k in t <==> WrittenAt(log, m, m == 0 || !PriceStays(chain(m - 1).dexPrices, p)))
            && (k in t ==> ShowsPrice(p, t[k].state) && ShowsPriceDeltas(if m > 0 then chain(m - 1).dexPrices else [], log, m, p, t[k]))
  {
    var was := if m > 0 then chain(m - 1).dexPrices else [];
    PricesStoredWhole(chain, log);
    DecoratedRowAt(PriceHistory(chain), PriceEntry, chain(m).dexPrices, was, SamePrice, WithPriceDeltas, log, m, p);
    PriceStaysMeans(was, p);
    var t, k := Replay(PriceFeed(chain), log), ((p.localChainId as nat, p.remoteChainId as nat), m);
    if k in t {
      PriceRowShows(was, log, m, p, t[k]);
    }
  }

  /** The price row of a pair as of h carries its price and pool sizes at h. */
  lemma PricesAsOf(chain: Chain, log: seq<Delivery>, h: nat, p: DexPrice)
    requires PricesWellFormed(chain) && IndexedThrough(log, h)
    requires p in chain(h).dexPrices
    ensures var k := (p.localChainId as nat, p.remoteChainId as nat);
            var row := AsOf(Replay(PriceFeed(chain), log), k, h);
            && (row.None? <==> Dormant(PriceHistory(chain), Never(), SamePrice, log, k, h))
            && (row.Some? ==> row.value.state.priceE6 == p.e6ScaledPrice && row.value.state.localPool == p.localPool &&
                              row.value.state.remotePool == p.remotePool)
  {
    var history := PriceHistory(chain);
    PricesStoredWhole(chain, log);
    assert DistinctKeys(history(h));
    MapMember(PriceEntry, chain(h).dexPrices, p);
    PriceChangesNoticed(history, PriceEntry(p).0);
    PriceRowsKeepState();
    DecoratedAsOf(history, SamePrice, WithPriceDeltas, PriceStateOf, PriceCompared, log, PriceEntry(p).0, h);
  }

  lemma PriceColumnTelescopes(chain: Chain, log: seq<Delivery>, c: nat, h: nat, p: DexPrice, q: DexPrice,
                              amount: PriceState -> nat, delta: PriceRow -> int)
    requires PricesWellFormed(chain) && PriceEntry(p).0 == PriceEntry(q).0 && PairAlive(chain, PriceEntry(p).0, c, h)
    requires p in chain(c).dexPrices && q in chain(h).dexPrices && DeliveredWithPrevious(log, c, h)
    requires forall s :: amount(s) < TWO64
    requires forall s, prev :: delta(WithPriceDeltas(s, Some(prev))) == Delta(amount(s), amount(prev), TWO64)
    requires forall s, prev :: SamePrice(s, prev) ==> amount(s) == amount(prev)
    ensures Congruent(amount(ToPriceState(p)) + SumDeltas(Replay(PriceFeed(chain), log), PriceEntry(p).0, delta, c, h),
                      amount(ToPriceState(q)), TWO64)
  {
    var history := PriceHistory(chain);
    PricesStoredWhole(chain, log);
    assert DistinctKeys(history(c)) && DistinctKeys(history(h));
    MapMember(PriceEntry, chain(c).dexPrices, p);
    MapMember(PriceEntry, chain(h).dexPrices, q);
    Telescopes(history, SamePrice, WithPriceDeltas, amount, delta, TWO64, log, PriceEntry(p).0, c, h);
  }

  ghost predicate PairAlive(chain: Chain, pair: Pair, c: nat, h: nat) {
    c <= h && forall i :: c <= i <= h ==> pair in Collect(PriceHistory(chain)(i))
  }

  function PriceE6(s: PriceState): nat { s.priceE6 }

  function LocalPool(s: PriceState): nat { s.localPool }

  function RemotePool(s: PriceState): nat { s.remotePool }

  /** From a pair's price at c, the price deltas written above c lead to its price at h, modulo 2^64. */
  lemma PriceTelescopes(chain: Chain, log: seq<Delivery>, c: nat, h: nat, p: DexPrice, q: DexPrice)
    requires PricesWellFormed(chain) && PriceEntry(p).0 == PriceEntry(q).0 && PairAlive(chain, PriceEntry(p).0, c, h)
    requires p in chain(c).dexPrices && q in chain(h).dexPrices && DeliveredWithPrevious(log, c, h)
    ensures Congruent(p.e6ScaledPrice + SumDeltas(Replay(PriceFeed(chain), log), PriceEntry(p).0, PriceE6Delta, c, h),
                      q.e6ScaledPrice, TWO64)
  {
    PriceColumnTelescopes(chain, log, c, h, p, q, PriceE6, PriceE6Delta);
  }

  /** The same for the pair's local pool. */
  lemma LocalPoolTelescopes(chain: Chain, log: seq<Delivery>, c: nat, h: nat, p: DexPrice, q: DexPrice)
    requires PricesWellFormed(chain) && PriceEntry(p).0 == PriceEntry(q).0 && PairAlive(chain, PriceEntry(p).0, c, h)
    requires p in chain(c).dexPrices && q in chain(h).dexPrices && DeliveredWithPrevious(log, c, h)
    ensures Congruent(p.localPool + SumDeltas(Replay(PriceFeed(chain), log), PriceEntry(p).0, LocalPoolDelta, c, h),
                      q.localPool, TWO64)
  {
    PriceColumnTelescopes(chain, log, c, h, p, q, LocalPool, LocalPoolDelta);
  }

  /** And for its remote pool. */
  lemma RemotePoolTelescopes(chain: Chain, log: seq<Delivery>, c: nat, h: nat, p: DexPrice, q: DexPrice)
    requires PricesWellFormed(chain) && PriceEntry(p).0 == PriceEntry(q).0 && PairAlive(chain, PriceEntry(p).0, c, h)
    requires p in chain(c).dexPrices && q in chain(h).dexPrices && DeliveredWithPrevious(log, c, h)
    ensures Congruent(p.remotePool + SumDeltas(Replay(PriceFeed(chain), log), PriceEntry(p).0, RemotePoolDelta, c, h),
                      q.remotePool, TWO64)
  {
    PriceColumnTelescopes(chain, log, c, h, p, q, RemotePool, RemotePoolDelta);
  }
}
