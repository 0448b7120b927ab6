/** Change detection for pools, pool point holders and DEX prices. */
module Liquidity {
  import opened Encoding
  import opened Tables
  import opened ChangeDetection
  import opened Chain
  import opened Deltas

  /** Keys of decorated rows that fit their column are stored as they are. */
  lemma StoredWhole<K, S, R>(entries: nat -> seq<(K, S)>, same: (S, S) -> bool, row: (S, Option<S>) -> R,
                             column: S -> K, rowColumn: R -> K, d: Delivery)
    requires forall x :: x in entries(d.height) ==> column(x.1) == x.0
    requires forall s, o :: rowColumn(row(s, o)) == column(s)
    ensures Rekey(rowColumn, DecoratedFeed(entries, same, row)(d)) == DecoratedFeed(entries, same, row)(d)
  {
    var prev := PreviousState(entries, d);
    var plain := SnapshotFeed(entries, Never(), same)(d);
    RekeyEmit(column, entries(d.height), prev, Never()(d.height), same);
    var rows := Decorate(row, plain, prev);
    assert rows == DecoratedFeed(entries, same, row)(d);
    forall i | 0 <= i < |rows|
      ensures Rekey(rowColumn, rows)[i] == rows[i]
    {
      KeyKept(row, column, rowColumn, plain[i].1, Lookup(prev, plain[i].0));
      assert Rekey(column, plain)[i] == plain[i];
    }
  }

  lemma KeyKept<K, S, R>(row: (S, Option<S>) -> R, column: S -> K, rowColumn: R -> K, s: S, o: Option<S>)
    requires forall s, o :: rowColumn(row(s, o)) == column(s)
    ensures rowColumn(row(s, o)) == column(s)
  {
  }

  /** The undecorated columns of a decorated table read back as a plain snapshot table does. */
  lemma DecoratedAsOf<K(!new), S, R, P>(entries: nat -> seq<(K, S)>, same: (S, S) -> bool, row: (S, Option<S>) -> R,
                                        state: R -> S, p: S -> P, log: seq<Delivery>, k: K, h: nat)
    requires DistinctHistory(entries) && IndexedThrough(log, h)
    requires k in Collect(entries(h)) && Notices(entries, same, p, k)
    requires forall s, o :: state(row(s, o)) == s
    ensures var r := AsOf(Replay(DecoratedFeed(entries, same, row), log), k, h);
            && (r.None? <==> Dormant(entries, Never(), same, log, k, h))
            && (r.Some? ==> p(state(r.value)) == p(Collect(entries(h))[k]))
  {
    var plain := SnapshotFeed(entries, Never(), same);
    forall d: Delivery
      ensures plain(d) == Project(state, DecoratedFeed(entries, same, row)(d))
    {
      ProjectDecorated(row, state, plain(d), PreviousState(entries, d));
    }
    ProjectAsOf(DecoratedFeed(entries, same, row), plain, state, log, k, h);
    SnapshotAsOf(entries, Never(), same, p, log, k, h);
  }

  // ================================================================ pools

  const ESCROW_POOL_ADDEND: nat := 65536
  const LIQUIDITY_POOL_ADDEND: nat := 32768
  const HOLDING_POOL_ADDEND: nat := 16384

  function ExtractChainId(poolId: nat): nat {
    if poolId >= ESCROW_POOL_ADDEND then poolId - ESCROW_POOL_ADDEND
    else if poolId >= LIQUIDITY_POOL_ADDEND then poolId - LIQUIDITY_POOL_ADDEND
    else if poolId >= HOLDING_POOL_ADDEND then poolId - HOLDING_POOL_ADDEND
    else poolId
  }

  /** A chain has four pools; its id is read off each of them exactly as long as it stays below the next addend. */
  lemma ChainIdOfPools(chainId: nat)
    ensures ExtractChainId(chainId) == chainId <==> chainId < 16384
    ensures ExtractChainId(16384 + chainId) == chainId <==> chainId < 16384
    ensures ExtractChainId(32768 + chainId) == chainId <==> chainId < 32768
    ensures ExtractChainId(65536 + chainId) == chainId
  {
  }

  /** The columns of a pool that follow from its current state; ids and counts are stored narrowed. */
  datatype PoolState = PoolState(poolId: nat, amount: U64, totalPoints: U64, lpCount: U16, chainId: nat, liquidityPoolId: nat)

  datatype PoolRow = PoolRow(state: PoolState, amountDelta: int, totalPointsDelta: int, lpCountDelta: int)

  function ToPoolState(p: Pool): PoolState {
    var chainId := ExtractChainId(p.id);
    PoolState(p.id % 0x1_0000_0000, p.amount, p.totalPoolPoints, |p.points| % 0x1_0000, chainId % 0x1_0000,
              (LIQUIDITY_POOL_ADDEND + chainId) % 0x1_0000_0000)
  }

  function PoolEntry(p: Pool): (nat, PoolState) { (p.id, ToPoolState(p)) }

  predicate SamePool(cur: PoolState, prev: PoolState) {
    cur.amount == prev.amount && cur.totalPoints == prev.totalPoints && cur.lpCount == prev.lpCount
  }

  function WithPoolDeltas(s: PoolState, prev: Option<PoolState>): PoolRow {
    match prev
    case None => PoolRow(s, 0, 0, 0)
    case Some(p) => PoolRow(s, Delta(s.amount, p.amount, TWO64), Delta(s.totalPoints, p.totalPoints, TWO64),
                            Delta(s.lpCount, p.lpCount, TWO16))
  }

  function PoolAmount(s: PoolState): nat { s.amount }

  function TotalPoints(s: PoolState): nat { s.totalPoints }

  function AmountDelta(r: PoolRow): int { r.amountDelta }

  function TotalPointsDelta(r: PoolRow): int { r.totalPointsDelta }

  function PoolColumn(r: PoolRow): nat { r.state.poolId }

  function PoolHistory(chain: Chain): nat -> seq<(nat, PoolState)> {
    (h: nat) => Map(PoolEntry, chain(h).pools)
  }

  ghost function PoolFeed(chain: Chain): Feed<nat, PoolRow> {
    (d: Delivery) => Rekey(PoolColumn, DecoratedFeed(PoolHistory(chain), SamePool, WithPoolDeltas)(d))
  }

  /** The change flag is raised exactly when a compared column differs, even though it is computed from wrapped deltas. */
  lemma PoolDeltasDetect(cur: PoolState, prev: PoolState)
    ensures var r := WithPoolDeltas(cur, Some(prev));
            r.amountDelta != 0 || r.totalPointsDelta != 0 || r.lpCountDelta != 0 <==> !SamePool(cur, prev)
  {
    DeltaLeads(cur.amount, prev.amount, TWO64);
    DeltaLeads(cur.totalPoints, prev.totalPoints, TWO64);
    DeltaLeads(cur.lpCount, prev.lpCount, TWO16);
  }

  /** The lookup map of the previous state. */
  method IndexPreviousPools(previous: seq<Pool>) returns (prevMap: map<nat, Pool>)
    ensures Mirrors(prevMap, Collect(Map(PoolEntry, previous)), ToPoolState)
  {
    prevMap := map[];
    for i := 0 to |previous|
      invariant Mirrors(prevMap, Collect(Map(PoolEntry, previous[..i])), ToPoolState)
    {
      IndexStep(prevMap, PoolEntry, ToPoolState, previous, i);
      prevMap := prevMap[previous[i].id as nat := previous[i]];
    }
    assert previous[..|previous|] == previous;
  }

  /** The pools that are new or changed, as rows with their deltas. */
  ghost function PoolRows(current: seq<Pool>, before: map<nat, PoolState>): seq<(nat, PoolRow)> {
    Decorate(WithPoolDeltas, Emit(Map(PoolEntry, current), before, {}, SamePool), before)
  }

  method ConvertPools(current: seq<Pool>, previous: seq<Pool>) returns (results: seq<(nat, PoolRow)>)
    ensures results == PoolRows(current, Collect(Map(PoolEntry, previous)))
  {
    var prevMap := IndexPreviousPools(previous);
    ghost var before := Collect(Map(PoolEntry, previous));

    results := [];
    ghost var emitted: seq<(nat, PoolState)> := [];
    for i := 0 to |current|
      invariant emitted == Emit(Map(PoolEntry, current[..i]), before, {}, SamePool)
      invariant results == Decorate(WithPoolDeltas, emitted, before)
    {
      var pool := current[i];
      var model := PoolRow(ToPoolState(pool), 0, 0, 0);
      var changed := false;
      if pool.id in prevMap {
        var prevPool := prevMap[pool.id];
        model := WithPoolDeltas(ToPoolState(pool), Some(ToPoolState(prevPool)));
        if model.amountDelta != 0 || model.totalPointsDelta != 0 || model.lpCountDelta != 0 {
          changed := true;
        }
        PoolDeltasDetect(ToPoolState(pool), ToPoolState(prevPool));
      } else {
        changed := true;
      }
      EmitStep(PoolEntry, current, i, before, SamePool);
      if changed {
        DecorateSnoc(WithPoolDeltas, emitted, PoolEntry(pool), before);
        results := results + [(pool.id as nat, model)];
        emitted := emitted + [PoolEntry(pool)];
      }
    }
    assert current[..|current|] == current;
  }

  ghost predicate PoolsWellFormed(chain: Chain) {
    && (forall h: nat, p :: p in chain(h).pools ==> p.id < TWO32)
    && (forall h: nat, i, j :: 0 <= i < j < |chain(h).pools| ==> chain(h).pools[i].id != chain(h).pools[j].id)
  }

  lemma PoolIdFits(p: Pool)
    requires p.id < TWO32
    ensures PoolEntry(p).1.poolId == PoolEntry(p).0
  {
  }

  lemma PoolIdsFit(chain: Chain, g: nat)
    requires PoolsWellFormed(chain)
    ensures var entries := Map(PoolEntry, chain(g).pools);
            DistinctKeys(entries) && forall x :: x in entries ==> x.1.poolId == x.0
  {
    var entries := Map(PoolEntry, chain(g).pools);
    MapDistinct(PoolEntry, chain(g).pools);
    forall x | x in entries ensures x.1.poolId == x.0 {
      var i :| 0 <= i < |entries| && entries[i] == x;
      assert chain(g).pools[i] in chain(g).pools;
      PoolIdFits(chain(g).pools[i]);
    }
  }

  lemma PoolFeedIsDecorated(chain: Chain)
    requires PoolsWellFormed(chain)
    ensures DistinctHistory(PoolHistory(chain))
    ensures forall d :: PoolFeed(chain)(d) == DecoratedFeed(PoolHistory(chain), SamePool, WithPoolDeltas)(d)
  {
    var history := PoolHistory(chain);
    forall g: nat
      ensures DistinctKeys(history(g)) && forall x :: x in history(g) ==> x.1.poolId == x.0
    {
      PoolIdsFit(chain, g);
    }
    forall d: Delivery
      ensures PoolFeed(chain)(d) == DecoratedFeed(history, SamePool, WithPoolDeltas)(d)
    {
      StoredWhole(history, SamePool, WithPoolDeltas, (s: PoolState) => s.poolId, PoolColumn, d);
    }
  }

  lemma PoolsStoredWhole(chain: Chain, log: seq<Delivery>)
    requires PoolsWellFormed(chain)
    ensures DistinctHistory(PoolHistory(chain))
    ensures Replay(PoolFeed(chain), log) == Replay(DecoratedFeed(PoolHistory(chain), SamePool, WithPoolDeltas), log)
  {
    PoolFeedIsDecorated(chain);
    SameFeedSameTable(PoolFeed(chain), DecoratedFeed(PoolHistory(chain), SamePool, WithPoolDeltas), log);
  }

  // Heights delivered with and without the state before them: deltas may differ, the pools' states do not.

  ghost predicate PoolDeltasSettled(chain: Chain, log: seq<Delivery>) {
    DeltasSettled(PoolHistory(chain), SamePool, log)
  }

  /** All deliveries agree on the pool rows exactly when no height that came both ways saw a pool change. */
  lemma PoolFeedAgreesExactly(chain: Chain, log: seq<Delivery>)
    requires PoolsWellFormed(chain)
    ensures Agree(PoolFeed(chain), log) <==> PoolDeltasSettled(chain, log)
  {
    PoolFeedIsDecorated(chain);
    SameFeedAgrees(PoolFeed(chain), DecoratedFeed(PoolHistory(chain), SamePool, WithPoolDeltas), log);
    forall s, p | !SamePool(s, p) ensures WithPoolDeltas(s, Some(p)) != WithPoolDeltas(s, None) {
      PoolDeltasDetect(s, p);
    }
    DecoratedAgreesExactly(PoolHistory(chain), SamePool, WithPoolDeltas, log);
  }

  /** Without the delta columns the pool table does not depend on the order of deliveries. */
  lemma PoolStatesOrderIndependent(chain: Chain, log: seq<Delivery>, other: seq<Delivery>)
    requires PoolsWellFormed(chain) && SameDeliveries(log, other)
    ensures ProjectTable(PoolStateOf, Replay(PoolFeed(chain), log)) == ProjectTable(PoolStateOf, Replay(PoolFeed(chain), other))
  {
    PoolsStoredWhole(chain, log);
    PoolsStoredWhole(chain, other);
    PoolRowsKeepState();
    DecoratedStatesAgree(PoolHistory(chain), SamePool, WithPoolDeltas, PoolStateOf, log);
    DecoratedStatesAgree(PoolHistory(chain), SamePool, WithPoolDeltas, PoolStateOf, other);
    OrderIndependence(SnapshotFeed(PoolHistory(chain), Never(), SamePool), log, other);
  }

  lemma AmountMoved(cur: PoolState, prev: PoolState)
    requires cur.amount != prev.amount
    ensures !SamePool(cur, prev) && WithPoolDeltas(cur, None).amountDelta == 0
    ensures WithPoolDeltas(cur, Some(prev)).amountDelta == Delta(cur.amount, prev.amount, TWO64) != 0
  {
    DeltaLeads(cur.amount, prev.amount, TWO64);
  }

  /** A pool whose amount moved at a height that came both ways: the later delivery decides whether its delta is stored. */
  lemma DeltaDependsOnOrder(chain: Chain, h: nat, p: Pool, q: Pool)
    requires PoolsWellFormed(chain) && h > 0 && p in chain(h).pools && q in chain(h - 1).pools && p.id == q.id && p.amount != q.amount
    ensures var k, with, without := (p.id as nat, h), Delivery(h, true), Delivery(h, false);
            var t, u := Replay(PoolFeed(chain), [with, without]), Replay(PoolFeed(chain), [without, with]);
            && k in t && t[k].amountDelta == 0
            && k in u && u[k].amountDelta == Delta(p.amount, q.amount, TWO64) != 0
  {
    var history, with, without := PoolHistory(chain), Delivery(h, true), Delivery(h, false);
    PoolsStoredWhole(chain, [with, without]);
    PoolsStoredWhole(chain, [without, with]);
    assert DistinctKeys(history(h)) && DistinctKeys(history(h - 1));
    MapMember(PoolEntry, chain(h).pools, p);
    MapMember(PoolEntry, chain(h - 1).pools, q);
    AmountMoved(ToPoolState(p), ToPoolState(q));
    DecoratedDependsOnOrder(history, SamePool, WithPoolDeltas, h, p.id);
  }

  /** All deliveries agree on the holder rows. */
  lemma HolderFeedAgrees(chain: Chain, log: seq<Delivery>)
    requires PoolsWellFormed(chain) && DistinctHolders(chain)
    ensures Agree(HolderFeed(chain), log)
  {
    HolderHistoryDistinct(chain);
    HolderFeedIsSnapshot(chain);
    SnapshotFeedAgrees(HolderHistory(chain), Never(), SameHolder, log);
    SameFeedAgrees(HolderFeed(chain), SnapshotFeed(HolderHistory(chain), Never(), SameHolder), log);
  }

  lemma HolderHistoryDistinct(chain: Chain)
    requires PoolsWellFormed(chain) && DistinctHolders(chain)
    ensures DistinctHistory(HolderHistory(chain))
  {
    forall g: nat ensures DistinctKeys(HolderHistory(chain)(g)) {
      HolderKeysDistinct(chain(g).pools);
    }
  }

  function PoolStateOf(r: PoolRow): PoolState { r.state }

  function PoolCompared(s: PoolState): (U64, U64, nat) { (s.amount, s.totalPoints, s.lpCount) }

  lemma PoolChangesNoticed(history: nat -> seq<(nat, PoolState)>, k: nat)
    ensures Notices(history, SamePool, PoolCompared, k)
  {
  }

  lemma PoolRowsKeepState()
    ensures forall s, o :: PoolStateOf(WithPoolDeltas(s, o)) == s
  {
  }

  /** The pool's row as of h carries its amount, its points and its number of providers modulo 65536. */
  lemma PoolsAsOf(chain: Chain, log: seq<Delivery>, h: nat, p: Pool)
    requires PoolsWellFormed(chain) && IndexedThrough(log, h)
    requires p in chain(h).pools
    ensures var row := AsOf(Replay(PoolFeed(chain), log), p.id, h);
            && (row.None? <==> Dormant(PoolHistory(chain), Never(), SamePool, log, p.id, h))
            && (row.Some? ==> row.value.state.amount == p.amount && row.value.state.totalPoints == p.totalPoolPoints &&
                              row.value.state.lpCount == |p.points| % 0x1_0000)
  {
    var history := PoolHistory(chain);
    PoolsStoredWhole(chain, log);
    assert DistinctKeys(history(h));
    MapMember(PoolEntry, chain(h).pools, p);
    PoolChangesNoticed(history, p.id);
    PoolRowsKeepState();
    DecoratedAsOf(history, SamePool, WithPoolDeltas, PoolStateOf, PoolCompared, log, p.id, h);
  }

  /** The pool was there before, with the same amount and points, and as many providers modulo 65536. */
  ghost predicate PoolStays(was: seq<Pool>, p: Pool) {
    exists q :: q in was && q.id == p.id && q.amount == p.amount && q.totalPoolPoints == p.totalPoolPoints &&
                |q.points| % 0x1_0000 == |p.points| % 0x1_0000
  }

  predicate ShowsPool(p: Pool, s: PoolState) {
    && s.poolId == p.id && s.amount == p.amount && s.totalPoints == p.totalPoolPoints && s.lpCount == |p.points| % 0x1_0000
    && s.chainId == ExtractChainId(p.id) % 0x1_0000 && s.liquidityPoolId == (32768 + ExtractChainId(p.id)) % 0x1_0000_0000
  }

  /** The deltas of a pool against the pool before it. */
  ghost predicate PoolLeads(q: Pool, p: Pool, r: PoolRow) {
    && Leads(q.amount, p.amount, r.amountDelta, 0x1_0000_0000_0000_0000)
    && Leads(q.totalPoolPoints, p.totalPoolPoints, r.totalPointsDelta, 0x1_0000_0000_0000_0000)
    && Leads(|q.points| % 0x1_0000, |p.points| % 0x1_0000, r.lpCountDelta, 0x1_0000)
  }

  /** The delta columns are zero where there was nothing to compare with, and lead from the pool before to this one otherwise. */
  ghost predicate ShowsPoolDeltas(was: seq<Pool>, log: seq<Delivery>, m: nat, p: Pool, r: PoolRow) {
    || (r.amountDelta == r.totalPointsDelta == r.lpCountDelta == 0 && WrittenAt(log, m, forall q :: q in was ==> q.id != p.id))
    || (m > 0 && Delivery(m, true) in log && exists q :: q in was && q.id == p.id && PoolLeads(q, p, r))
  }

  lemma PoolDeltasLead(q: Pool, p: Pool)
    ensures PoolLeads(q, p, WithPoolDeltas(ToPoolState(p), Some(ToPoolState(q))))
  {
    DeltaLeads(p.amount, q.amount, TWO64);
    DeltaLeads(p.totalPoolPoints, q.totalPoolPoints, TWO64);
    DeltaLeads(|p.points| % 0x1_0000, |q.points| % 0x1_0000, TWO16);
  }

  lemma PoolStaysMeans(was: seq<Pool>, p: Pool)
    ensures Stays(PoolEntry, was, SamePool, p) <==> PoolStays(was, p)
  {
  }

  lemma PoolStateShows(p: Pool)
    requires p.id < TWO32
    ensures ShowsPool(p, PoolEntry(p).1)
  {
  }

  lemma PoolFresh(was: seq<Pool>, log: seq<Delivery>, m: nat, p: Pool)
    requires WrittenAt(log, m, forall q :: q in was ==> PoolEntry(q).0 != PoolEntry(p).0)
    ensures ShowsPoolDeltas(was, log, m, p, WithPoolDeltas(PoolEntry(p).1, None))
  {
    assert (forall q :: q in was ==> PoolEntry(q).0 != PoolEntry(p).0) == (forall q :: q in was ==> q.id != p.id);
  }

  lemma PoolMoved(was: seq<Pool>, log: seq<Delivery>, m: nat, p: Pool, q: Pool)
    requires q in was && q.id == p.id && m > 0 && Delivery(m, true) in log
    ensures ShowsPoolDeltas(was, log, m, p, WithPoolDeltas(PoolEntry(p).1, Some(PoolEntry(q).1)))
  {
    PoolDeltasLead(q, p);
  }

  lemma PoolRowShows(was: seq<Pool>, log: seq<Delivery>, m: nat, p: Pool, r: PoolRow)
    requires p.id < TWO32 && DecoratedAs(PoolEntry, was, WithPoolDeltas, log, m, p, r)
    ensures ShowsPool(p, r.state) && ShowsPoolDeltas(was, log, m, p, r)
  {
    PoolStateShows(p);
    if q :| q in was && PoolEntry(q).0 == PoolEntry(p).0 && m > 0 && Delivery(m, true) in log &&
            r == WithPoolDeltas(PoolEntry(p).1, Some(PoolEntry(q).1))
    {
      PoolMoved(was, log, m, p, q);
      PoolRowsKeepState();
    } else {
      PoolFresh(was, log, m, p);
    }
  }

  /** A block leaves a row for a pool that is new or changed, with every column of the pool and its deltas. */
  lemma PoolRowAt(chain: Chain, log: seq<Delivery>, m: nat, p: Pool)
    requires PoolsWellFormed(chain) && p in chain(m).pools
    ensures var t, k := Replay(PoolFeed(chain), log), (p.id as nat, m);
            && (k in t <==> WrittenAt(log, m, m == 0 || !PoolStays(chain(m - 1).pools, p)))
            && (k in t ==> ShowsPool(p, t[k].state) && ShowsPoolDeltas(if m > 0 then chain(m - 1).pools else [], log, m, p, t[k]))
  {
    var was := if m > 0 then chain(m - 1).pools else [];
    PoolsStoredWhole(chain, log);
    DecoratedRowAt(PoolHistory(chain), PoolEntry, chain(m).pools, was, SamePool, WithPoolDeltas, log, m, p);
    PoolStaysMeans(was, p);
    var t := Replay(PoolFeed(chain), log);
    if (p.id as nat, m) in t {
      PoolRowShows(was, log, m, p, t[(p.id as nat, m)]);
    }
  }

  ghost predicate PoolAlive(chain: Chain, id: nat, c: nat, h: nat) {
    c <= h && forall i :: c <= i <= h ==> id in Collect(PoolHistory(chain)(i))
  }

  ghost predicate DeliveredWithPrevious(log: seq<Delivery>, c: nat, h: nat) {
    (forall i :: c < i <= h ==> Indexed(log, i)) && (forall d :: d in log && c < d.height <= h ==> d.withPrevious)
  }

  lemma PoolColumnTelescopes(chain: Chain, log: seq<Delivery>, c: nat, h: nat, p: Pool, q: Pool,
                             amount: PoolState -> nat, delta: PoolRow -> int)
    requires PoolsWellFormed(chain) && p.id == q.id && PoolAlive(chain, p.id, c, h)
    requires p in chain(c).pools && q in chain(h).pools && DeliveredWithPrevious(log, c, h)
    requires forall s :: amount(s) < TWO64
    requires forall s, prev :: delta(WithPoolDeltas(s, Some(prev))) == Delta(amount(s), amount(prev), TWO64)
    requires forall s, prev :: SamePool(s, prev) ==> amount(s) == amount(prev)
    ensures Congruent(amount(ToPoolState(p)) + SumDeltas(Replay(PoolFeed(chain), log), p.id, delta, c, h),
                      amount(ToPoolState(q)), TWO64)
  {
    var history := PoolHistory(chain);
    PoolsStoredWhole(chain, log);
    assert DistinctKeys(history(c)) && DistinctKeys(history(h));
    MapMember(PoolEntry, chain(c).pools, p);
    MapMember(PoolEntry, chain(h).pools, q);
    Telescopes(history, SamePool, WithPoolDeltas, amount, delta, TWO64, log, p.id, c, h);
  }

  /** From its amount at c, the amount deltas of a pool written above c lead to its amount at h, modulo 2^64. */
  lemma PoolAmountTelescopes(chain: Chain, log: seq<Delivery>, c: nat, h: nat, p: Pool, q: Pool)
    requires PoolsWellFormed(chain) && p.id == q.id && PoolAlive(chain, p.id, c, h)
    requires p in chain(c).pools && q in chain(h).pools && DeliveredWithPrevious(log, c, h)
    ensures Congruent(p.amount + SumDeltas(Replay(PoolFeed(chain), log), p.id, AmountDelta, c, h),
                      q.amount, TWO64)
  {
    PoolColumnTelescopes(chain, log, c, h, p, q, PoolAmount, AmountDelta);
  }

  /** The same for the pool's points. */
  lemma PoolPointsTelescope(chain: Chain, log: seq<Delivery>, c: nat, h: nat, p: Pool, q: Pool)
    requires PoolsWellFormed(chain) && p.id == q.id && PoolAlive(chain, p.id, c, h)
    requires p in chain(c).pools && q in chain(h).pools && DeliveredWithPrevious(log, c, h)
    ensures Congruent(p.totalPoolPoints + SumDeltas(Replay(PoolFeed(chain), log), p.id, TotalPointsDelta, c, h),
                      q.totalPoolPoints, TWO64)
  {
    PoolColumnTelescopes(chain, log, c, h, p, q, TotalPoints, TotalPointsDelta);
  }

  // ================================================================ pool point holders

  datatype HolderRow = HolderRow(address: string, poolId: nat, committee: nat, points: U64, liquidityPoolPoints: U64,
                                 liquidityPoolId: nat, poolAmount: U64)

  function ToHolderRow(pool: Pool, pp: PoolPoints): HolderRow {
    var committee := ExtractChainId(pool.id) % 0x1_0000;
    HolderRow(Hex(pp.address), pool.id % 0x1_0000_0000, committee, pp.points, pool.totalPoolPoints,
              (LIQUIDITY_POOL_ADDEND + committee) % 0x1_0000_0000, pool.amount)
  }

  function HolderEntry(pool: Pool): PoolPoints -> ((string, nat), HolderRow) {
    (pp: PoolPoints) => ((Hex(pp.address), pool.id), ToHolderRow(pool, pp))
  }

  /** All holders of all pools, in the order of the two nested lists. */
  function HolderEntries(pools: seq<Pool>): seq<((string, nat), HolderRow)> {
    if pools == [] then []
    else
      var pool := pools[|pools| - 1];
      HolderEntries(pools[..|pools| - 1]) + Map(HolderEntry(pool), pool.points)
  }

  predicate SameHolder(cur: HolderRow, prev: HolderRow) {
    cur.points == prev.points && cur.liquidityPoolPoints == prev.liquidityPoolPoints
  }

  function HolderColumn(r: HolderRow): (string, nat) { (r.address, r.poolId) }

  function HolderHistory(chain: Chain): nat -> seq<((string, nat), HolderRow)> {
    (h: nat) => HolderEntries(chain(h).pools)
  }

  ghost function HolderFeed(chain: Chain): Feed<(string, nat), HolderRow> {
    (d: Delivery) => Rekey(HolderColumn, SnapshotFeed(HolderHistory(chain), Never(), SameHolder)(d))
  }

  datatype PrevHolder = PrevHolder(points: U64, totalPoolPoints: U64)

  /** The lookup table by printed key holds what c holds by pool and address. */
  ghost predicate IndexesHolders(m: map<string, PrevHolder>, c: map<(string, nat), HolderRow>) {
    forall a: string, id: nat ::
      && (PoolHolderKey(id, a) in m <==> (a, id) in c)
      && ((a, id) in c ==> m[PoolHolderKey(id, a)] == PrevHolder(c[(a, id)].points, c[(a, id)].liquidityPoolPoints))
  }

  lemma IndexHolder(m: map<string, PrevHolder>, c: map<(string, nat), HolderRow>, a: string, id: nat, row: HolderRow)
    requires IndexesHolders(m, c)
    ensures IndexesHolders(m[PoolHolderKey(id, a) := PrevHolder(row.points, row.liquidityPoolPoints)], c[(a, id) := row])
  {
    forall b: string, i: nat
      ensures PoolHolderKey(i, b) == PoolHolderKey(id, a) <==> (b, i) == (a, id)
    {
      PoolHolderKeyInjective(i, b, id, a);
    }
  }

  /** The entries of the first i pools, and of the first j holders of the pool after them. */
  ghost function EntriesUpTo(pools: seq<Pool>, i: nat, j: nat): seq<((string, nat), HolderRow)>
    requires i < |pools| && j <= |pools[i].points|
  {
    HolderEntries(pools[..i]) + Map(HolderEntry(pools[i]), pools[i].points[..j])
  }

  lemma EntriesEnds(pools: seq<Pool>, i: nat)
    requires i < |pools|
    ensures EntriesUpTo(pools, i, 0) == HolderEntries(pools[..i])
    ensures EntriesUpTo(pools, i, |pools[i].points|) == HolderEntries(pools[..i + 1])
  {
    assert pools[..i + 1][..i] == pools[..i];
    assert pools[i].points[..|pools[i].points|] == pools[i].points;
  }

  lemma EntriesSnoc(pools: seq<Pool>, i: nat, j: nat)
    requires i < |pools| && j < |pools[i].points|
    ensures EntriesUpTo(pools, i, j + 1) == EntriesUpTo(pools, i, j) + [HolderEntry(pools[i])(pools[i].points[j])]
  {
    MapStep(HolderEntry(pools[i]), pools[i].points, j);
  }

  lemma IndexHolderStep(m: map<string, PrevHolder>, pools: seq<Pool>, i: nat, j: nat)
    requires i < |pools| && j < |pools[i].points| && IndexesHolders(m, Collect(EntriesUpTo(pools, i, j)))
    ensures var p, pp := pools[i], pools[i].points[j];
            IndexesHolders(m[PoolHolderKey(p.id, Hex(pp.address)) := PrevHolder(pp.points, p.totalPoolPoints)],
                           Collect(EntriesUpTo(pools, i, j + 1)))
  {
    var p, pp := pools[i], pools[i].points[j];
    EntriesSnoc(pools, i, j);
    CollectSnoc(EntriesUpTo(pools, i, j), HolderEntry(p)(pp));
    IndexHolder(m, Collect(EntriesUpTo(pools, i, j)), Hex(pp.address), p.id, ToHolderRow(p, pp));
  }

  method IndexPreviousHolders(previous: seq<Pool>) returns (prevMap: map<string, PrevHolder>)
    ensures IndexesHolders(prevMap, Collect(HolderEntries(previous)))
  {
    prevMap := map[];
    for i := 0 to |previous|
      invariant IndexesHolders(prevMap, Collect(HolderEntries(previous[..i])))
    {
      var p := previous[i];
      EntriesEnds(previous, i);
      for j := 0 to |p.points|
        invariant IndexesHolders(prevMap, Collect(EntriesUpTo(previous, i, j)))
      {
        var pp := p.points[j];
        IndexHolderStep(prevMap, previous, i, j);
        prevMap := prevMap[PoolHolderKey(p.id, Hex(pp.address)) := PrevHolder(pp.points, p.totalPoolPoints)];
      }
    }
    assert previous[..|previous|] == previous;
  }

  predicate ShouldSnapshot(prevMap: map<string, PrevHolder>, pool: Pool, pp: PoolPoints) {
    var key := PoolHolderKey(pool.id, Hex(pp.address));
    key !in prevMap || pp.points != prevMap[key].points || pool.totalPoolPoints != prevMap[key].totalPoolPoints
  }

  /** The entries that are new or whose points changed. */
  ghost function ChangedHolders(entries: seq<((string, nat), HolderRow)>, before: map<(string, nat), HolderRow>): seq<((string, nat), HolderRow)> {
    Emit(entries, before, {}, SameHolder)
  }

  lemma HolderStep(prevMap: map<string, PrevHolder>, before: map<(string, nat), HolderRow>, pools: seq<Pool>, i: nat, j: nat)
    requires IndexesHolders(prevMap, before) && i < |pools| && j < |pools[i].points|
    ensures var pool, pp := pools[i], pools[i].points[j];
            ChangedHolders(EntriesUpTo(pools, i, j + 1), before) ==
            ChangedHolders(EntriesUpTo(pools, i, j), before) +
            if ShouldSnapshot(prevMap, pool, pp) then [HolderEntry(pool)(pp)] else []
  {
    var pool := pools[i];
    var x := HolderEntry(pool)(pool.points[j]);
    EntriesSnoc(pools, i, j);
    EmitSnoc(EntriesUpTo(pools, i, j), x, before, {}, SameHolder);
    assert PoolHolderKey(pool.id, x.0.0) in prevMap <==> x.0 in before;
  }

  method ConvertPoolPoints(current: seq<Pool>, previous: seq<Pool>) returns (results: seq<((string, nat), HolderRow)>)
    ensures results == ChangedHolders(HolderEntries(current), Collect(HolderEntries(previous)))
  {
    var prevMap := IndexPreviousHolders(previous);
    ghost var before := Collect(HolderEntries(previous));
    results := [];
    for i := 0 to |current|
      invariant results == ChangedHolders(HolderEntries(current[..i]), before)
    {
      var pool := current[i];
      EntriesEnds(current, i);
      for j := 0 to |pool.points|
        invariant results == ChangedHolders(EntriesUpTo(current, i, j), before)
      {
        HolderStep(prevMap, before, current, i, j);
        if ShouldSnapshot(prevMap, pool, pool.points[j]) {
          results := results + [HolderEntry(pool)(pool.points[j])];
        }
      }
    }
    assert current[..|current|] == current;
  }

  ghost predicate DistinctHolders(chain: Chain) {
    forall h: nat, p :: p in chain(h).pools ==>
      forall i, j :: 0 <= i < j < |p.points| ==> p.points[i].address != p.points[j].address
  }

  /** The flattened list holds the entries of every pool's every holder, and nothing else. */
  lemma {:induction false} HolderOrigins(pools: seq<Pool>)
    ensures forall x :: x in HolderEntries(pools) ==> exists p, pp :: p in pools && pp in p.points && x == HolderEntry(p)(pp)
    ensures forall p, pp :: p in pools && pp in p.points ==> HolderEntry(p)(pp) in HolderEntries(pools)
  {
    if pools != [] {
      var n := |pools| - 1;
      var pool, rest := pools[n], pools[..n];
      HolderOrigins(rest);
      assert pool in pools && forall p :: p in pools <==> p in rest || p == pool;
      var own := Map(HolderEntry(pool), pool.points);
      forall x | x in own ensures exists pp :: pp in pool.points && x == HolderEntry(pool)(pp) {
        var i :| 0 <= i < |own| && own[i] == x;
        assert pool.points[i] in pool.points;
      }
      forall pp | pp in pool.points ensures HolderEntry(pool)(pp) in own {
        var i :| 0 <= i < |pool.points| && pool.points[i] == pp;
        assert own[i] == HolderEntry(pool)(pp);
      }
    }
  }

  lemma {:induction false} HolderKeysDistinct(pools: seq<Pool>)
    requires forall i, j :: 0 <= i < j < |pools| ==> pools[i].id != pools[j].id
    requires forall p :: p in pools ==> forall i, j :: 0 <= i < j < |p.points| ==> p.points[i].address != p.points[j].address
    ensures DistinctKeys(HolderEntries(pools))
  {
    if pools != [] {
      var n := |pools| - 1;
      var pool, rest := pools[n], pools[..n];
      HolderKeysDistinct(rest);
      HolderOrigins(rest);
      assert pool in pools;
      var own := Map(HolderEntry(pool), pool.points);
      forall i, j | 0 <= i < j < |pool.points|
        ensures HolderEntry(pool)(pool.points[i]).0 != HolderEntry(pool)(pool.points[j]).0
      {
        HexInjective(pool.points[i].address, pool.points[j].address);
      }
      MapDistinct(HolderEntry(pool), pool.points);
      forall i, j | 0 <= i < |HolderEntries(rest)| && 0 <= j < |own|
        ensures HolderEntries(rest)[i].0 != own[j].0
      {
        assert HolderEntries(rest)[i] in HolderEntries(rest);
      }
    }
  }

  function HolderCompared(r: HolderRow): (U64, U64) { (r.points, r.liquidityPoolPoints) }

  lemma HolderFeedIsSnapshot(chain: Chain)
    requires PoolsWellFormed(chain)
    ensures forall d :: HolderFeed(chain)(d) == SnapshotFeed(HolderHistory(chain), Never(), SameHolder)(d)
  {
    var history := HolderHistory(chain);
    forall d: Delivery
      ensures HolderFeed(chain)(d) == SnapshotFeed(history, Never(), SameHolder)(d)
    {
      HolderColumnsFit(chain(d.height).pools);
      RekeyEmit(HolderColumn, history(d.height), PreviousState(history, d), Never()(d.height), SameHolder);
    }
  }

  lemma HolderColumnFits(p: Pool, pp: PoolPoints)
    requires p.id < TWO32
    ensures HolderColumn(HolderEntry(p)(pp).1) == HolderEntry(p)(pp).0
  {
  }

  lemma HolderColumnsFit(pools: seq<Pool>)
    requires forall p :: p in pools ==> p.id < TWO32
    ensures forall x :: x in HolderEntries(pools) ==> HolderColumn(x.1) == x.0
  {
    HolderOrigins(pools);
    forall x | x in HolderEntries(pools) ensures HolderColumn(x.1) == x.0 {
      var p, pp :| p in pools && pp in p.points && x == HolderEntry(p)(pp);
      HolderColumnFits(p, pp);
    }
  }

  /** The holder was in the pool before, with the same points, and so was the pool with the same total. */
  ghost predicate HolderStays(was: seq<Pool>, p: Pool, pp: PoolPoints) {
    exists q, qq :: q in was && qq in q.points && q.id == p.id && qq.address == pp.address &&
                    qq.points == pp.points && q.totalPoolPoints == p.totalPoolPoints
  }

  /** The columns of a holder's row, those included that are not compared. */
  predicate ShowsHolder(p: Pool, pp: PoolPoints, r: HolderRow) {
    && r.address == Hex(pp.address) && r.poolId == p.id && r.points == pp.points && r.liquidityPoolPoints == p.totalPoolPoints
    && r.committee == ExtractChainId(p.id) % 0x1_0000 && r.liquidityPoolId == 32768 + ExtractChainId(p.id) % 0x1_0000
    && r.poolAmount == p.amount
  }

  lemma HolderListed(pools: seq<Pool>, p: Pool, pp: PoolPoints)
    requires DistinctKeys(HolderEntries(pools)) && p in pools && pp in p.points
    ensures var k, c := (Hex(pp.address), p.id as nat), Collect(HolderEntries(pools));
            k in c && c[k] == ToHolderRow(p, pp)
  {
    HolderOrigins(pools);
    var i :| 0 <= i < |HolderEntries(pools)| && HolderEntries(pools)[i] == HolderEntry(p)(pp);
    CollectDistinct(HolderEntries(pools), i);
  }

  lemma HolderFound(pools: seq<Pool>, k: (string, nat)) returns (p: Pool, pp: PoolPoints)
    requires k in Collect(HolderEntries(pools))
    ensures p in pools && pp in p.points && k == (Hex(pp.address), p.id as nat)
  {
    HolderOrigins(pools);
    CollectKeys(HolderEntries(pools), k);
    var i :| 0 <= i < |HolderEntries(pools)| && HolderEntries(pools)[i].0 == k;
    assert HolderEntries(pools)[i] in HolderEntries(pools);
    p, pp :| p in pools && pp in p.points && HolderEntries(pools)[i] == HolderEntry(p)(pp);
  }

  /** What the state before holds for a holder, as far as it is compared. */
  ghost predicate HolderWas(c: map<(string, nat), HolderRow>, p: Pool, pp: PoolPoints) {
    var k := (Hex(pp.address), p.id as nat);
    k in c && c[k].points == pp.points && c[k].liquidityPoolPoints == p.totalPoolPoints
  }

  lemma HolderListedPoints(pools: seq<Pool>, p: Pool, pp: PoolPoints)
    requires DistinctKeys(HolderEntries(pools)) && p in pools && pp in p.points
    ensures HolderWas(Collect(HolderEntries(pools)), p, pp)
  {
    HolderListed(pools, p, pp);
  }

  lemma HolderStood(was: seq<Pool>, p: Pool, pp: PoolPoints)
    requires DistinctKeys(HolderEntries(was)) && HolderStays(was, p, pp)
    ensures HolderWas(Collect(HolderEntries(was)), p, pp)
  {
    var q, qq :| q in was && qq in q.points && q.id == p.id && qq.address == pp.address &&
                 qq.points == pp.points && q.totalPoolPoints == p.totalPoolPoints;
    HolderListedPoints(was, q, qq);
  }

  lemma HolderStandsBack(was: seq<Pool>, p: Pool, pp: PoolPoints)
    requires DistinctKeys(HolderEntries(was)) && HolderWas(Collect(HolderEntries(was)), p, pp)
    ensures HolderStays(was, p, pp)
  {
    var q, qq := HolderFound(was, (Hex(pp.address), p.id as nat));
    HolderListedPoints(was, q, qq);
    HexInjective(qq.address, pp.address);
  }

  lemma HolderStaysExactly(was: seq<Pool>, p: Pool, pp: PoolPoints)
    requires DistinctKeys(HolderEntries(was))
    ensures HolderStays(was, p, pp) <==> HolderWas(Collect(HolderEntries(was)), p, pp)
  {
    if HolderStays(was, p, pp) {
      HolderStood(was, p, pp);
    } else if HolderWas(Collect(HolderEntries(was)), p, pp) {
      HolderStandsBack(was, p, pp);
    }
  }

  lemma HolderQuiet(chain: Chain, d: Delivery, p: Pool, pp: PoolPoints)
    requires DistinctHistory(HolderHistory(chain)) && p in chain(d.height).pools && pp in p.points
    ensures Quiet(HolderHistory(chain), Never(), SameHolder, d, (Hex(pp.address), p.id as nat)) <==>
            d.withPrevious && d.height > 0 && HolderStays(chain(d.height - 1).pools, p, pp)
  {
    assert DistinctKeys(HolderHistory(chain)(d.height));
    HolderListedPoints(chain(d.height).pools, p, pp);
    if d.HasPrevious() {
      assert DistinctKeys(HolderHistory(chain)(d.height - 1));
      HolderStaysExactly(chain(d.height - 1).pools, p, pp);
    }
  }

  lemma HolderWritten(chain: Chain, log: seq<Delivery>, m: nat, p: Pool, pp: PoolPoints)
    requires DistinctHistory(HolderHistory(chain)) && p in chain(m).pools && pp in p.points
    ensures var t, k := Replay(SnapshotFeed(HolderHistory(chain), Never(), SameHolder), log), ((Hex(pp.address), p.id as nat), m);
            && (k in t <==> WrittenAt(log, m, m == 0 || !HolderStays(chain(m - 1).pools, p, pp)))
            && (k in t ==> t[k] == ToHolderRow(p, pp))
  {
    var history, k := HolderHistory(chain), (Hex(pp.address), p.id as nat);
    assert DistinctKeys(history(m));
    HolderListed(chain(m).pools, p, pp);
    forall d: Delivery | d.height == m
      ensures Quiet(history, Never(), SameHolder, d, k) <==> d.withPrevious && m > 0 && HolderStays(chain(m - 1).pools, p, pp)
    {
      HolderQuiet(chain, d, p, pp);
    }
    WrittenUnlessQuiet(history, Never(), SameHolder, log, k, m, m == 0 || !HolderStays(chain(m - 1).pools, p, pp));
  }

  /** A block leaves a row for a holder that is new, or whose points or whose pool's points changed. */
  lemma HolderRowAt(chain: Chain, log: seq<Delivery>, m: nat, p: Pool, pp: PoolPoints)
    requires PoolsWellFormed(chain) && DistinctHolders(chain) && p in chain(m).pools && pp in p.points
    ensures var t, k := Replay(HolderFeed(chain), log), ((Hex(pp.address), p.id as nat), m);
            && (k in t <==> WrittenAt(log, m, m == 0 || !HolderStays(chain(m - 1).pools, p, pp)))
            && (k in t ==> ShowsHolder(p, pp, t[k]))
  {
    HoldersAreSnapshots(chain, log);
    HolderWritten(chain, log, m, p, pp);
    HolderRowShows(p, pp);
  }

  lemma HoldersAreSnapshots(chain: Chain, log: seq<Delivery>)
    requires PoolsWellFormed(chain) && DistinctHolders(chain)
    ensures Replay(HolderFeed(chain), log) == Replay(SnapshotFeed(HolderHistory(chain), Never(), SameHolder), log)
    ensures DistinctHistory(HolderHistory(chain))
  {
    HolderHistoryDistinct(chain);
    HolderFeedIsSnapshot(chain);
    SameFeedSameTable(HolderFeed(chain), SnapshotFeed(HolderHistory(chain), Never(), SameHolder), log);
  }

  lemma HolderRowShows(p: Pool, pp: PoolPoints)
    requires p.id < TWO32
    ensures ShowsHolder(p, pp, ToHolderRow(p, pp))
  {
  }

  /** The holder's row as of h carries its points and the pool's total points at h. */
  lemma HoldersAsOf(chain: Chain, log: seq<Delivery>, h: nat, p: Pool, pp: PoolPoints)
    requires PoolsWellFormed(chain) && DistinctHolders(chain) && IndexedThrough(log, h)
    requires p in chain(h).pools && pp in p.points
    ensures var k := (Hex(pp.address), p.id as nat);
            var row := AsOf(Replay(HolderFeed(chain), log), k, h);
            && (row.None? <==> Dormant(HolderHistory(chain), Never(), SameHolder, log, k, h))
            && (row.Some? ==> row.value.points == pp.points && row.value.liquidityPoolPoints == p.totalPoolPoints)
  {
    var history := HolderHistory(chain);
    HoldersAreSnapshots(chain, log);
    assert DistinctKeys(history(h));
    HolderListed(chain(h).pools, p, pp);
    SnapshotAsOf(history, Never(), SameHolder, HolderCompared, log, (Hex(pp.address), p.id as nat), h);
  }
}
