# A verified model of the Canopy indexer

The indexer follows a blockchain node. For every block height it fetches the chain's state at that
height and at the height before, writes only what changed into tables keyed by entity and height, and
lets readers take the newest row per entity. This project models that pipeline in Dafny and proves what
it is for: that readers see the chain's state, in whatever order, however often and by however many
workers blocks are indexed.

`dafny verify dfyconfig.toml` checks the whole project.

## How the model is laid out

- `Chain`, `Encoding`, `Tables`: the decoded state of the node (a chain is a function from heights to
  blobs), the printed keys, and the tables as maps from (entity key, height) to rows.
- `ChangeDetection`: what a block writes, what a log of committed blocks leaves in a table, and the
  as-of theorem, once for every kind of entity. `Snapshots`, `Deltas`, `Liquidity`, `Prices`,
  `Validators`, `SigningInfo` and `Dex` hold the converters as methods with the source's loops and
  lookup maps, and instantiate the theorem; for each table a lemma says, in the node's own fields, when
  a block leaves a row and what its columns are. `DexBlobs` does so for the three kinds of DEX items.
- `Store`, `Indexing`: all tables written in one transaction, and the workers' protocol (check, commit,
  summarise, record, publish) as a state machine with crashes and interleavings.
- `Triggers`, `GlobalStore`: the rows that insert triggers keep in the global tables, with the triggers
  installed at any time.
- `ChainDb`: the write path as a class, from the node's blob through converters, inserts and triggers, step by
  step beside other workers; every state it can be in is a state of a run of the protocol.
- `Gaps`, `Backfill`, `EndToEnd`: missing heights, the batch loop, and the theorem that a clean backfill
  makes the database show the chain.
- `Deletes`: deleting heights, and indexing them again.
- `RpcCache`, `RateLimiter`, `Breaker`: the RPC client's local state machines.
- `Registry`, `Mirror`: the registry of chains, and the columns and rows of a global table that several
  chains share.
- `Arithmetic`: two facts about products that the rate limiter and the breaker share.

## What is assumed

Keys are unique within one blob; pool ids fit 32 bits and committee and chain ids 16 (outside that they
collide, `Snapshots.CommitteeIdsCollide`); the node always answers one height in the same way. For DEX
items: an id only moves forward from absent through the next and the current batch to gone, completing once
(`Dex.Lives`, and in the fields of batches and events `DexBlobs.LivesAs`), wherever it is before height 1,
where one id is concerned; where the whole database is, only that it does one thing at a height (`Store.ExclusiveDex`, which `Dex.Lives` implies by
`Dex.LivesExclusively`). SQL tables are maps by primary key and transactions are atomic. A chain's database
(`ChainDb`) starts with empty tables and without triggers; workers index blocks, and triggers are installed
and removed between their calls. Two sets of heights stand for the chain's own blocks table and for its rows
in the global one, which the backfill queries (`internal/backfill/gaps.go:24-33`). Clock readings, faults,
cancellations and other writers are parameters or nondeterministic choices. Heights are natural numbers; the
narrowed and wrapping columns are modelled with their widths.

## Where the code does less than it says

Each of these is stated by a lemma or a contract, with the exact condition where the code meets its promise:

- The comment on accounts (`pkg/db/models/indexer/account.go:28-31`) claims correctness for parallel and
  unordered indexing. The delta columns of pools and prices depend on the order when a height arrives both
  with and without its previous state (`Liquidity.DeltaDependsOnOrder`); `Store.DatabaseOrderExactly` says
  exactly when, and everything else is order independent.
- An entity that stood unchanged since before height 1 never gets a row when every block arrives with its
  previous state (`Snapshots.GenesisAccountHasNoRow`); `ChangeDetection.SnapshotAsOf` says exactly when a row
  is absent.
- Zero rows for addresses that left, and completions of DEX items, need the previous state. The WebSocket
  path (`internal/indexer/indexer.go:386-394`) never carries it, so that a height delivered only there
  loses them for good (`SigningInfo.LostReset`, `Dex.LostCompletion`). A count that was there before height 1
  and stands at height 1 gets no row either (`SigningInfo.Standing`), nor does a DEX item that stands in its batch
  since then (`Dex.NoNews`). `SigningInfo.CountersReconstruct` and `Dex.LifecycleAsOf` give the equivalences.
- A block whose summary failed after its commit is skipped by every later attempt
  (`Indexing.CrashAbandons`): its summary can still come if and only if some worker still holds the block
  (`Indexing.SummarisedUnlessAbandoned`).
- When every endpoint's circuit is open a request returns no error and an empty result
  (`Breaker.NothingAsked`). A chain head read that way is 0, and a backfill up to head 0 finishes at once
  with nothing missing.
- A batch size of 0 would make a backfill finish cleanly without attempting anything (`Backfill.Run`); both
  loaders of the configuration refuse it (`internal/backfill/config.go:55-57`, `cmd/backfill/main.go:159-161`).
- Above 10^9 requests a second the refill interval is 0 and nothing is limited
  (`RateLimiter.TooFastIsUnlimited`); n interleaved callers overshoot the bucket by n - 1 both ways, and no
  further (`RateLimiter.InterleavedBound`, `RateLimiter.AlwaysWithinExactly`).
- The cache comment speaks of the last 10 blocks; eleven heights, height 0, and one older entry just
  written can be there (`RpcCache.Cache.SetCache`).
- The committee comparison misses changes exactly when the previous list repeats an id
  (`Validators.RepetitionHidesChange`, `Validators.ComparisonIsExact`).
- Removing a chain through `RemoveChain` and adding it again would lose its running listener
  (`Registry.RemoveChainLosesListener`); nothing in the repository calls `RemoveChain`.
- The latest view shows the newest indexed height, which is not the end of a backfilled range when blocks
  above it are indexed already; `Triggers.LatestOfGlobal` states when the two agree.
- Installing triggers copies nothing (`ResyncTable` and `ResyncChain` have no caller). Pausing a chain drops them
  with its global rows (`internal/indexer/indexer.go:290-346`, `418-444`) and resuming it only installs them again
  (`internal/indexer/indexer.go:366`); where that fails it is logged, and the chain is indexed without them. A
  backfill then finds every height unlisted, skips each of them as already indexed, and ends without a failure,
  while the latest views lack every key whose newest row is older than the triggers
  (`EndToEnd.BackfillAfterPause`, `Mirror.PauseAndResume`). `EndToEnd.GlobalsAreShown` and `Mirror.PerformInserts`
  give the exact conditions; with triggers from the
  start the views are complete (`EndToEnd.SeenFromTheStart`).
- A height that is listed in the global blocks table and not in the chain's own is never attempted, so that a clean
  backfill leaves it out (`EndToEnd.CleanRunCovers`). Deletes lead there: they do not reach the global tables.
- The latest views read global tables filled by AFTER INSERT triggers, so that an upsert that corrects a row
  does not reach them: of two different rows for one key the global table keeps the first
  (`Mirror.LookAlike`). `Triggers.GlobalRow` says when this cannot be seen; it can in the deltas of pools
  (`GlobalStore.PoolsAgreeOn`), and after a delete, which fires no trigger (`Mirror.MirroredTable.Delete`).
  The views of committees, supply and params (`pkg/db/postgres/crosschain/views.go:63-74`, `161-186`) read
  global tables that no trigger fills (`pkg/db/types.go:27-120`).
- A global name that stood for two columns would be filled from the later one
  (`Mirror.SourcesAreOwnExactly`). No column list of the repository has one, and PostgreSQL refuses an insert
  that names a column twice.

## Model

| member | source | states |
|---|---|---|
| EndToEnd.BackfillShowsChain | internal/backfill/backfill.go:54-210 | a backfill from height 1 to its end - the configured one, or the head of the chain where none is - that finishes without failures leaves every height of the range in the chain's database, except exactly where a height was listed without being there; then all fourteen change-detected tables show the chain's state at n, whatever was indexed before and whatever other workers did meanwhile; the latest views of the ten mirrored tables have a key's newest row exactly when it was written since the triggers were installed, and read it then |
| EndToEnd.CoveredIsShown | internal/indexer/conversions.go:24-1456 | for any log of commits that covers 1 to n, in any order and with any repetitions, the chain's own tables read every entity as it is at n, column by column, or have no row, the latter exactly when it stood unchanged since before the first block; member rows carry stake, status and flags, counters the numbers the node lists, DEX rows the terms of the batch that holds them and the result of the last event |
| EndToEnd.CleanRunCovers | internal/backfill/backfill.go:98-199 | a run without failures covers its range if and only if every height of it that was listed before is in the chain's own blocks table |
| EndToEnd.GlobalsAreShown | pkg/db/postgres/crosschain/views.go:35-46 | whatever was committed before and since the triggers were installed, the latest views have a key's newest row exactly when it was written since |
| EndToEnd.BackfillAfterPause | internal/indexer/indexer.go:349-369 | after a pause and a clean backfill up to the configured end, or the head, the own tables show the chain, and the latest views lack exactly the keys whose newest row is from before the pause |
| Triggers.InsertMirrored | pkg/db/postgres/crosschain/sync.go:81-110 | the upserts of a batch fire the trigger for the rows that were not there, and not for those that were |
| Triggers.FirstFires | pkg/db/postgres/crosschain/sync.go:81-110 | statement by statement: the first statement for a key without a row at that height becomes its global row; rows of other keys and heights, and of keys that had a row, stay |
| Triggers.GlobalRow | pkg/db/postgres/crosschain/sync.go:81-110 | for a key on which all deliveries agree, the global rows, which are the rows inserted first, are the rows of the chain's own table at every height |
| Triggers.GlobalSinceRow | pkg/db/postgres/crosschain/sync.go:81-110 | with triggers installed on a table, the global rows of a key are the table's rows beside those it held then |
| Triggers.LatestOfGlobal | pkg/db/postgres/crosschain/views.go:35-46 | the latest view of the global rows has the row that the as-of query at n reads from the chain's own table, as long as no block above n is indexed, exactly when that row was written since the trigger was installed |
| GlobalStore.FireExtendsGlobal | pkg/db/postgres/crosschain/sync.go:81-110 | the triggers of one more block extend the global rows of all ten mirrored tables to the longer log, whatever was there before the triggers |
| GlobalStore.PoolsAgreeOn | internal/indexer/conversions.go:973-1029 | all statements for a pool at one height agree in every column but the deltas, so that its global rows do too |
| GlobalStore.DexAgreesOn | internal/indexer/conversions.go:434-540 | for an id that does one thing at a time all statements of a height bring one row, so that its global rows are its own |
| GlobalStore.GlobalsOrderIndependent | pkg/db/postgres/crosschain/sync.go:81-110 | the global rows, but for the deltas of pools, depend only on the sets of deliveries before and since the triggers were installed |
| Tables.UpsertRow | pkg/db/postgres/chain/inserts.go:322-343 | an upsert batch changes rows of its own height only, and leaves the last statement for each key |
| Tables.InsertBatch | pkg/db/postgres/chain/inserts.go:322-343 | queued statements run one after the other are one upsert of the batch |
| Tables.FirstStatement | pkg/db/postgres/crosschain/sync.go:81-110 | what inserts leave for a key when the first statement stays is the first statement |
| Tables.LastStatement | pkg/db/postgres/chain/inserts.go:322-343 | what upserts leave for a key is the last statement |
| Tables.AsOfWitness | pkg/db/postgres/crosschain/views.go:39-43 | the as-of reading is the row of greatest height not above h, and is absent exactly when there is none |
| Tables.LatestIsAsOf | pkg/db/postgres/crosschain/views.go:39-43 | with no row above h the latest view reads what the as-of query at h reads |
| Tables.LatestExists | pkg/db/postgres/crosschain/views.go:39-43 | every key with a row appears in the latest view |
| Encoding.UnhexHex | pkg/transform/helpers.go:7-12 | hexadecimal keys can be read back to the bytes they came from |
| Encoding.HexDigits | pkg/transform/helpers.go:7-12 | two lower-case digits a byte, the higher first |
| Encoding.HexInjective | pkg/transform/helpers.go:7-12 | two byte strings share a row key only if they are equal |
| Encoding.ScanDecimal | pkg/rpc/httpclient.go:107-109 | scanning undoes decimal printing for every number |
| Encoding.PoolHolderKeyInjective | internal/indexer/conversions.go:852-854 | the holder lookup key determines pool and address |
| Encoding.PriceKeyInjective | internal/indexer/conversions.go:1136-1143 | the price lookup key determines the pair |
| Encoding.CacheKeyInjective | pkg/rpc/httpclient.go:107-109 | the cache key determines path and height, even for paths with colons |
| ChangeDetection.SnapshotAsOf | pkg/db/models/indexer/account.go:24-33 | as-of reconstruction for any kind of entity: with heights 1 to h committed in any order, a key alive at h reads as it is at h, or has no row at all, exactly when it never changed since before the first block |
| ChangeDetection.SnapshotRow | internal/indexer/conversions.go:927-970 | a row of height h is missing exactly when every delivery of h brought the previous state and found the entity unchanged |
| ChangeDetection.RowAt | internal/indexer/conversions.go:927-970 | an entity has a row of height m exactly when some delivery of m came without the previous state, or the entity is forced, new or different there; the row holds it as it is at m |
| ChangeDetection.BornLater | internal/indexer/conversions.go:927-970 | an entity absent before height 1 always has a row |
| ChangeDetection.ReplayIsUnion | pkg/db/models/indexer/account.go:28-31 | a table is the union of what the committed deliveries write |
| ChangeDetection.OrderIndependence | pkg/db/models/indexer/account.go:28-31 | two logs of the same deliveries leave the same table, whatever their order and repetitions |
| ChangeDetection.OrderIndependentExactly | pkg/db/models/indexer/account.go:28-31 | order and repetitions do not matter if and only if the deliveries of a height agree on what they write |
| ChangeDetection.SnapshotFeedAgrees | internal/indexer/conversions.go:927-970 | two deliveries of one height, with and without the previous state, never write different values for a key |
| ChangeDetection.EmitCollects | internal/indexer/conversions.go:942-969 | a key is written exactly when it is new, changed or forced, and then with its current state |
| Snapshots.ConvertAccounts | internal/indexer/conversions.go:927-970 | the loop over a lookup map emits exactly the new and changed accounts, in order |
| Snapshots.AccountRowAt | internal/indexer/conversions.go:927-970 | a block leaves a row for an account exactly when it is new, holds another amount than before, or the block came without its previous state |
| Snapshots.AccountsAsOf | internal/indexer/conversions.go:927-970 | an account's row as of h carries its amount at h |
| Snapshots.GenesisAccountHasNoRow | pkg/db/models/indexer/account.go:28-31 | an account funded before height 1 that never moves has no row at any height, although every block was indexed with its previous state |
| Snapshots.ConvertOrders | internal/indexer/conversions.go:1057-1111 | emits exactly the orders that are new or differ in one of five columns |
| Snapshots.OrderRowAt | internal/indexer/conversions.go:1057-1111 | a block leaves a row for an order exactly when it is new or its amounts, deadline or buyer addresses differ, or the block came without its previous state; the row has every column of the order, and is locked exactly when both buyer addresses are set |
| Snapshots.OrderStatusNoticed | internal/indexer/conversions.go:1032-1038 | the derived order status is never stale, although it is not compared |
| Snapshots.OrdersAsOf | internal/indexer/conversions.go:1057-1111 | an order's row as of h carries its amounts, deadline and buyer addresses at h, and is locked exactly when both addresses are set |
| Snapshots.ConvertCommittees | internal/indexer/conversions.go:1409-1456 | emits exactly the committees that are new or made progress |
| Snapshots.CommitteeRowAt | internal/indexer/conversions.go:1409-1456 | a block leaves a row for a committee exactly when it is new or made progress, or the block came without its previous state, with every column of the committee |
| Snapshots.CommitteesAsOf | internal/indexer/conversions.go:1409-1456 | a committee's row as of h carries its id, both heights and its samples at h, for ids below 65536 |
| Snapshots.CommitteeIdsCollide | internal/indexer/conversions.go:1409-1456 | in any list, committees share a row exactly when their ids are equal modulo 65536, and the last of them is the one stored |
| Snapshots.SupplyRowAt | internal/indexer/conversions.go:1357-1392 | a block leaves a supply row exactly when there was none before or one of the totals differs, or the block came without its previous state |
| Snapshots.SupplyAsOf | internal/indexer/conversions.go:1357-1392 | the supply row as of h carries the totals at h |
| Deltas.DeltaLeads | internal/indexer/conversions.go:991-1015 | a wrapped 64-bit delta leads from the previous amount to the current one, is the one such number that a signed column holds, and is zero only if they are equal |
| Deltas.Telescopes | internal/indexer/conversions.go:991-1015 | for any decorated entity, the value at c plus all later deltas is the value at h, modulo the column's width |
| Liquidity.PoolDeltasDetect | internal/indexer/conversions.go:991-1015 | the pool change flag, computed from wrapped deltas, is raised exactly when amount, points or provider count modulo 65536 differ |
| Liquidity.ChainIdOfPools | pkg/transform/pool.go:42-53 | the chain id is read off the ids of its four pools exactly as long as it stays below the next addend |
| Liquidity.PoolRowAt | internal/indexer/conversions.go:973-1029 | a block leaves a row for a pool exactly when it is new or changed, or the block came without its previous state; the row has every column of the pool, and deltas that lead from the pool before to this one, or zeros where there was nothing to compare with |
| Liquidity.ConvertPools | internal/indexer/conversions.go:973-1029 | emits exactly the new and changed pools, with their deltas |
| Liquidity.PoolsAsOf | internal/indexer/conversions.go:973-1029 | a pool's row as of h carries its amount, points and provider count (modulo 65536) at h |
| Liquidity.PoolAmountTelescopes | internal/indexer/conversions.go:991-1015 | amount deltas of a pool telescope modulo 2^64 while every block came with its previous state |
| Liquidity.PoolPointsTelescope | internal/indexer/conversions.go:991-1015 | the same for the pool's total points |
| Liquidity.ConvertPoolPoints | internal/indexer/conversions.go:348-430 | the nested loops emit exactly the holders that are new or whose points or pool points changed |
| Liquidity.HolderKeysDistinct | internal/indexer/conversions.go:348-430 | no two holders of a blob share a row key |
| Liquidity.HolderRowAt | internal/indexer/conversions.go:348-430 | a block leaves a row for a holder exactly when it is new, or its points or the pool's total changed, or the block came without its previous state; the row has every column of holder and pool |
| Liquidity.HoldersAsOf | internal/indexer/conversions.go:348-430 | a holder's row as of h carries its points and the pool's total at h |
| Liquidity.PoolFeedAgreesExactly | internal/indexer/conversions.go:991-1015 | deliveries agree on the pool rows exactly when no height that came both with and without its previous state saw a pool change |
| Liquidity.DeltaDependsOnOrder | internal/indexer/conversions.go:991-1015 | for every pool whose amount moved at a height that came both ways, the later delivery decides whether its delta is stored |
| Prices.ConvertDexPrices | internal/indexer/conversions.go:1128-1186 | emits exactly the pairs whose price or pool sizes changed, with their deltas |
| Prices.PriceRowAt | internal/indexer/conversions.go:1128-1186 | a block leaves a row for a pair exactly when it is new or its price or pool sizes changed, or the block came without its previous state, with every column and its deltas |
| Prices.PricesAsOf | internal/indexer/conversions.go:1128-1186 | a pair's row as of h carries its price and pool sizes at h |
| Prices.PriceFeedAgreesExactly | internal/indexer/conversions.go:1161-1168 | the same exact condition for the price rows |
| Prices.PriceTelescopes | internal/indexer/conversions.go:1161-1168 | price deltas telescope modulo 2^64 |
| Prices.LocalPoolTelescopes | internal/indexer/conversions.go:1161-1168 | local pool deltas telescope modulo 2^64 |
| Prices.RemotePoolTelescopes | internal/indexer/conversions.go:1161-1168 | remote pool deltas telescope modulo 2^64 |
| Validators.EqualCommittees | internal/indexer/conversions.go:148-162 | equal length plus inclusion, by nested lookup |
| Validators.MatchMeansSameSet | internal/indexer/conversions.go:148-162 | that test means equal sets when the second list has no repetitions (by the pigeonhole principle) |
| Validators.RepetitionHidesChange | internal/indexer/conversions.go:148-162 | in every previous list that repeats an id, replacing the repetition by a new id is not noticed |
| Validators.ComparisonIsExact | internal/indexer/conversions.go:148-162 | the test tells every change of the committee set exactly when the previous list repeats no id |
| Validators.ParseValidatorLifecycleEvents | internal/indexer/conversions.go:166-208 | each of the four sets holds the addresses of its own kind of event |
| Validators.ConvertValidators | internal/indexer/conversions.go:24-145 | emits exactly the validators that are new, changed or named by a lifecycle event, and beside each its member rows |
| Validators.ValidatorRowAt | internal/indexer/conversions.go:24-145 | a block leaves a row for a validator exactly when it is new, one of nine fields differs, an auto-pause, auto-unstaking, slash or reward event of the block names it, or the block came without its previous state; the row has every column, and the status is unstaking before paused before active |
| Validators.ValidatorsAsOf | internal/indexer/conversions.go:24-145 | a validator's row as of h carries every field at h, and is unstaking exactly when an unstaking height is set, paused exactly when only a pause height is, active otherwise |
| Validators.CommitteeMembership | internal/indexer/conversions.go:124-141 | the member rows at the height of a validator's newest row are exactly its committees as of h, with its stake, status and flags, and say whether the committee is subsidised or retired at that height |
| Validators.MembersNeedRow | internal/indexer/conversions.go:124-141 | there are no member rows at a height where the validator has no row |
| Validators.MemberFeedAgrees | internal/indexer/conversions.go:124-141 | deliveries of one height, with and without the previous state, agree on the member rows |
| SigningInfo.ConvertNonSigners | internal/indexer/conversions.go:212-271 | updates first, then a zero row for every address that left |
| SigningInfo.ConvertDoubleSigners | internal/indexer/conversions.go:280-340 | updates of evidence counts first, then a zero row for every id that left |
| SigningInfo.CountersReconstruct | internal/indexer/conversions.go:212-340 | a counter reads as the chain has it, or zero, at every height from 1 to h if and only if every change was seen: no reset came without the previous state, and no count merely stood since before height 1 |
| SigningInfo.MissedBlocksReconstruct | internal/indexer/conversions.go:212-271 | the missed-block counter of any address reads, at every height from 1 to h, what the node lists for it, or zero where it lists nothing, if and only if every change was seen |
| SigningInfo.EvidenceReconstructs | internal/indexer/conversions.go:280-340 | the evidence count of any id reads, at every height from 1 to h, the number of heights the node lists with it, or zero where it lists none, if and only if every change was seen |
| SigningInfo.GoneKeepsReading | internal/indexer/indexer.go:386-394 | a counter that is gone at a height only delivered without its previous state keeps its old reading there |
| SigningInfo.LostReset | internal/indexer/indexer.go:386-394 | an address with any counter that leaves at such a height reads that counter, where the chain has none |
| SigningInfo.CounterFeedAgrees | internal/indexer/conversions.go:212-340 | deliveries of one height, with and without the previous state, never write different counters for a key |
| SigningInfo.MissedIsCounter | internal/indexer/conversions.go:212-271 | the counter that the tables are compared with is the one the node lists, or zero for an address that is not listed |
| SigningInfo.EvidenceIsCount | internal/indexer/conversions.go:301-318 | the count that the tables are compared with is the number of heights listed with the id, or zero for an id that is not listed |
| SigningInfo.MissedRowAt | internal/indexer/conversions.go:212-271 | when a block leaves a row for an address: it is listed and new or with another counter, or was listed and is no longer; the row holds the counter, or zero |
| SigningInfo.EvidenceRowAt | internal/indexer/conversions.go:280-340 | when a block leaves a row for an id: its number of heights differs from the one before, which is none where it was not listed, or it was listed and is no longer; the row holds the number, the first and the last height, or zeros |
| Dex.ParseDexEvents | internal/indexer/conversions.go:734-770 | the three event maps, each from its own kind of event |
| Dex.LastEventWins | internal/indexer/conversions.go:734-770 | such a map holds x for an id exactly when the last event that speaks of the id says x |
| Dex.ConvertWithStateMachine | internal/indexer/conversions.go:434-540 | completions, then locked, then pending rows, in the order in which they reach the table |
| Dex.ConvertDexOrders | internal/indexer/conversions.go:434-540 | the state machine run on orders |
| Dex.ConvertDexDeposits | internal/indexer/conversions.go:544-632 | the state machine run on deposits |
| Dex.ConvertDexWithdrawals | internal/indexer/conversions.go:636-727 | the state machine run on withdrawals |
| Dex.IndexItems | internal/indexer/conversions.go:812-849 | the lookup maps of the previous batches hold the last entry for each id |
| Dex.DeliveryNamesStage | internal/indexer/conversions.go:434-540 | although three loops write under one key, the last statement for an id names its stage at that height |
| Dex.LifecycleAsOf | internal/indexer/conversions.go:434-540 | the newest row of an id names its true stage and terms at every height; once gone it has its last terms, and is complete with its outcome exactly when its completion height was delivered with the previous state, locked for good otherwise; there is no row exactly when no block had news of the id |
| Dex.BornSeen | internal/indexer/conversions.go:434-540 | an id that is not there before the first block has a row exactly once it is there |
| Dex.LostCompletion | internal/indexer/indexer.go:386-394 | an item that completes at a height delivered without its previous state stays locked |
| Dex.StatesNeverGoBack | internal/indexer/conversions.go:434-540 | a complete row is followed by complete rows only, and a locked one never by a pending one |
| Dex.AtMostOneComplete | internal/indexer/conversions.go:434-540 | an id has at most one complete row, however its blocks are committed |
| Dex.OneStatement | internal/indexer/conversions.go:434-540 | an id that does one thing at a time is the subject of one statement a block at most |
| Dex.DexFeedAgrees | internal/indexer/conversions.go:434-540 | where every id does one thing at a time, deliveries of one height, with and without the previous state, agree on the DEX rows |
| Dex.LivesExclusively | internal/indexer/conversions.go:434-540 | an id with a regular life does one thing at a time |
| DexBlobs.OrderAsOf | internal/indexer/conversions.go:434-540 | in the fields of batches and events: the newest row of an order is pending with its address and amounts while one of the next batches holds it, locked with them while a current batch does, and once it is gone complete with success, sold, bought and origin of the last swap event for it if its completion was seen, locked otherwise; an order that is not older than height 1 has a row exactly once it is there |
| DexBlobs.OrderRowAt | internal/indexer/conversions.go:434-540 | when a block leaves a row for an order, and all its columns: committee, address, amounts, state, locked height and result |
| DexBlobs.DepositAsOf | internal/indexer/conversions.go:544-632 | the same for deposits, with the amount, and the origin and points of the last deposit event |
| DexBlobs.DepositRowAt | internal/indexer/conversions.go:544-632 | when a block leaves a row for a deposit, and its columns |
| DexBlobs.WithdrawalAsOf | internal/indexer/conversions.go:636-727 | the same for withdrawals, with the percentage, and the amounts and burned points of the last withdrawal event |
| DexBlobs.WithdrawalRowAt | internal/indexer/conversions.go:636-727 | when a block leaves a row for a withdrawal, and its columns |
| Store.ConvertToBlockData | internal/indexer/indexer.go:728-774 | all converters together produce the rows that the feeds of the tables speak of, for every chain and delivery |
| Store.CommitExtendsReplay | internal/indexer/indexer.go:489-560 | committing one more block is writing its rows to every table |
| Store.DatabaseOrderIndependent | internal/indexer/indexer.go:489-560 | the whole database, but for delta columns, depends only on the set of committed deliveries, also when a height came both with and without its previous state |
| Store.DatabaseOrderExactly | internal/indexer/indexer.go:489-560 | the delta columns do so too if and only if no height that came both ways saw a pool or a price change |
| Store.UniformOrderIndependent | internal/indexer/indexer.go:489-560 | all columns do so, for any chain, when no height came both ways |
| ChainDb.InsertAll | internal/indexer/indexer.go:489-560 | the inserts of a block, and what their triggers do, happen all or not at all, wherever one of them fails |
| ChainDb.ConvertAndInsert | internal/indexer/indexer.go:124-180 | converting and inserting a delivered block writes what the feeds of the tables speak of, or nothing |
| ChainDb.ChainDb.WriteBlockData | internal/indexer/indexer.go:489-560 | the transaction of a worker is the commit step of the protocol, or its rollback; it keeps what the triggers made of the blocks in step |
| ChainDb.ChainDb.IndexBlockWithData | internal/indexer/indexer.go:124-206 | under every fault, and whatever the other workers do in between, the exact protocol steps of the call: refused, skipped, rolled back, committed, summarised, recorded, published; and the database stays in a state of a run of the protocol |
| ChainDb.ChainDb.IndexBlock | internal/indexer/indexer.go:96-121 | an attempt at a block that is not there succeeds exactly when the fetch, the lookups, the transaction and the summary do; success means that the block is there, and a new block is the fetched one, with or without its previous state |
| ChainDb.CommitIsBlock | internal/indexer/indexer.go:489-560 | what the commits of a run leave is the replayed database |
| ChainDb.ShareUnique | pkg/db/postgres/crosschain/sync.go:81-110 | what the triggers of the commits leave since they were installed are the global rows of that log |
| ChainDb.ChainDb.SetupChainSync | pkg/db/postgres/crosschain/sync.go:16-44 | installs the triggers on whatever the tables hold, and copies nothing |
| ChainDb.ChainDb.RemoveChainSync | pkg/db/postgres/crosschain/sync.go:260-312 | drops the triggers, the chain's global rows and its listed heights; the chain's own tables stay |
| Indexing.StepKeepsSafe | internal/indexer/indexer.go:139-206 | every step of every worker keeps the safety invariant |
| Indexing.RunIsSafe | internal/indexer/indexer.go:139-206 | in every state of every run: progress ⊆ summaries ⊆ blocks, published ⊆ summaries, and the tables are what the committed deliveries alone leave |
| Indexing.ReachedByRun | internal/indexer/indexer.go:139-206 | what labelled steps lead to is the last state of a run |
| Indexing.CommitAllIsReplay | internal/indexer/indexer.go:489-560 | committing block after block leaves the replayed tables |
| Indexing.RunsAgree | internal/indexer/indexer.go:139-206 | two runs that committed the same deliveries, however interleaved or crashed, end with the same blocks and tables, but for delta columns; with those too when no height came both ways |
| Indexing.SummarisedUnlessAbandoned | internal/indexer/indexer.go:139-190 | a missing summary can still come in some continuation if and only if the block is not abandoned: in the database, without summary, and held by no worker |
| Indexing.AbandonedForever | internal/indexer/indexer.go:139-150 | an abandoned block stays abandoned in every continuation |
| Indexing.AbandonedIsNeverPublished | internal/indexer/indexer.go:139-206 | in a run, it is never recorded or published either |
| Indexing.CrashAbandons | internal/indexer/indexer.go:180-190 | one crash between commit and summary is enough for that |
| Backfill.ProcessBatch | internal/backfill/backfill.go:144-188 | every height of a batch is attempted once, and no other; it is in the database afterwards or among the errors, and only faulty attempts are among the errors |
| Backfill.ProcessBatches | internal/backfill/backfill.go:119-195 | the batch loop terminates, attempts no height twice and none that was listed, and every height below its cursor is listed, there, or was attempted |
| Backfill.Run | internal/backfill/backfill.go:54-210 | the range is from height 1, or the configured start, to the head of the chain, or the configured end; totalMissing counts its heights that are not listed; processed = succeeded + failed = attempts ≤ total missing, with equality when nobody else wrote in the range; after a finished run with a batch size every height of the range is listed, there, or among the errors, and only attempts that went wrong are |
| Backfill.ExactCount | internal/backfill/backfill.go:98-199 | attempts never exceed the heights not listed at first, and match them in an undisturbed walk |
| Gaps.FindMissingHeights | internal/backfill/gaps.go:21-54 | the query returns the lowest missing heights of the range, up to its limit |
| Gaps.MissingIsMissing | internal/backfill/gaps.go:21-54 | the list holds every missing height once, in order |
| Gaps.GapStatsAddUp | internal/backfill/gaps.go:57-103 | as many heights are expected as would be missing if none were indexed; indexed ones are those of the range in the table; expected = indexed + missing |
| Gaps.GapStatsBound | internal/backfill/gaps.go:57-103 | zero missing means full coverage; otherwise first and last missing are missing and bound all missing heights |
| Gaps.FindGaps | pkg/db/postgres/admin/index_progress.go:70-106 | comparing each indexed height with the one before finds one interval per non-adjacent pair |
| Gaps.GapsAreMaximal | pkg/db/postgres/admin/index_progress.go:70-106 | the intervals are nonempty, ordered, apart, and bounded by indexed heights |
| Gaps.GapsCover | pkg/db/postgres/admin/index_progress.go:68-106 | a height lies in an interval exactly when it is unindexed and between indexed heights |
| Gaps.GapsFlatten | pkg/db/postgres/admin/index_progress.go:70-106 | flattened, the intervals are the missing heights between the least and the greatest indexed one |
| Deletes.ChainSchema.DeleteAllAtHeight | pkg/db/postgres/chain/deletes.go:152-191 | removes exactly the rows of one height from all twenty tables, or nothing when a statement fails |
| Deletes.ChainSchema.DeleteBlockRange | pkg/db/postgres/chain/deletes.go:195-234 | removes exactly the rows of the range, refuses an inverted range, and rolls back on failure |
| Deletes.StatementsDropAll | pkg/db/postgres/chain/deletes.go:195-234 | on a schema that stores the database, each table under its own name, the statements delete the range from the database that the round trip speaks of |
| Deletes.RangeIsEveryHeight | pkg/db/postgres/chain/deletes.go:152-234 | deleting a range equals deleting each of its heights, in any order and even repeatedly |
| Deletes.DeleteUndoesCommits | pkg/db/postgres/chain/deletes.go:152-191 | after a delete a table is what it would be had those heights never been committed |
| Deletes.DeletedIsMissing | pkg/db/postgres/chain/deletes.go:195-234 | deleted heights, and no others, are missing again from the chain's own blocks table |
| Deletes.ReindexRestores | pkg/db/postgres/chain/deletes.go:195-234 | one table: delete and reindex with the same data restores it |
| Deletes.DeleteAndReindex | pkg/db/postgres/chain/deletes.go:195-234 | the whole database: delete a range, commit its blocks again in any order, and every table is what it was, but for delta columns; those too when no height came both ways |
| RpcCache.ParsePrinted | pkg/rpc/httpclient.go:145-153 | the last-colon parser reads off the height a key was printed from, whatever the path |
| RpcCache.ParseHeight | pkg/rpc/httpclient.go:145-153 | the backwards scan computes that number |
| RpcCache.SetCacheRefines | pkg/rpc/httpclient.go:128-160 | evicting by parsed height and storing keeps the cache equal to the windowed last-written map |
| RpcCache.KeptMeans | pkg/rpc/httpclient.go:128-160 | what is kept, in terms of all writes: something written for the path and height, at height 0, or not more than ten below any height written, or written last |
| RpcCache.Cache.SetCache | pkg/rpc/httpclient.go:128-160 | after any sequence of calls the cache is the last-written values restricted to height 0, the window, and the entry just written |
| RpcCache.Cache.GetCache | pkg/rpc/httpclient.go:112-125 | a hit is exactly an entry written at height 0, or not more than ten below any height written, or written last; and it is the last value written for the path and height |
| RpcCache.Cache.Fetch | pkg/rpc/httpclient.go:304-323 | with a node that answers one height in one way, a cached fetch returns what a fetch returns; an error or a block of another height is refused and not cached; the node is asked only on a miss |
| RateLimiter.RefillEveryPositive | pkg/rpc/httpclient.go:80-83 | the refill interval is zero exactly above 10^9 requests a second |
| RateLimiter.TokenBucket.constructor | pkg/rpc/httpclient.go:56-91 | a full bucket of 40 tokens and 20 a second unless positive numbers are configured |
| RateLimiter.RateBound | pkg/rpc/httpclient.go:162-182 | calls one at a time: tokens stay within the bucket, and acquisitions by time t are at most the burst plus one per full interval |
| RateLimiter.TooFastIsUnlimited | pkg/rpc/httpclient.go:162-182 | configured above 10^9 requests a second, nothing is limited |
| RateLimiter.TurnFailsOnlyEarly | pkg/rpc/httpclient.go:173-182 | a turn fails exactly on an empty bucket within one interval of the last refill |
| RateLimiter.TokenBucket.Refill | pkg/rpc/httpclient.go:162-171 | one token exactly when an interval has passed and the bucket is not full, stamped with the clock reading |
| RateLimiter.TokenBucket.Acquire | pkg/rpc/httpclient.go:173-182 | the loop takes turns until one gets a token, and takes one: at once when there is one or one interval has passed |
| RateLimiter.InterleavedBound | pkg/rpc/httpclient.go:162-182 | in every run of n interleaved callers tokens stay between 1 - n and burst + n - 1 |
| RateLimiter.BelowZeroIsReached | pkg/rpc/httpclient.go:173-182 | any number n of callers can leave any bucket at 1 - n |
| RateLimiter.AboveBurstIsReached | pkg/rpc/httpclient.go:162-171 | any number n of callers can fill any bucket to its burst plus n - 1 |
| RateLimiter.AlwaysWithinExactly | pkg/rpc/httpclient.go:162-182 | every run of n callers keeps the tokens between 0 and the burst exactly when n is 1 |
| Breaker.OpenedExactlyAtThreshold | pkg/rpc/httpclient.go:184-206 | in every run an endpoint is open exactly when its failures reach the threshold, with a deadline at most one cooldown ahead |
| Breaker.CircuitOfRun | pkg/rpc/httpclient.go:184-206 | after every run: the failures are those since a look last closed the circuit; there is a deadline exactly when they reach the threshold, 3 unless configured, and it is one cooldown, 5 s unless configured, after the last of them |
| Breaker.LookCloses | pkg/rpc/httpclient.go:184-196 | in every run a look finds the circuit open exactly when it has a deadline that has not passed; after the deadline it leaves no failures and no deadline, and changes nothing otherwise |
| Breaker.DeadlinesGrow | pkg/rpc/httpclient.go:198-206 | while a circuit stays open its deadline never moves back |
| Breaker.FailuresAreBounded | pkg/rpc/httpclient.go:184-206 | with calls one at a time, failing requests to an endpoint over time T are at most threshold · (T / cooldown + 1) |
| Breaker.Dedup | pkg/rpc/httpclient.go:94-104 | endpoints without repetitions, the same set, in the order of their first occurrences |
| Breaker.Client.IsOpen | pkg/rpc/httpclient.go:184-196 | open exactly when there is a deadline and the time is not after it; after it the deadline is dropped and the failures are zero; the other circuits stay |
| Breaker.Client.NoteFailure | pkg/rpc/httpclient.go:198-206 | counts one failure, puts the deadline one cooldown ahead once the threshold is reached, and leaves the others alone |
| Breaker.Client.Visit | pkg/rpc/blob.go:43-90 | one endpoint's turn: an unreachable endpoint and a status from 500 on count as failures when it was asked, and nothing else does |
| Breaker.Client.Request | pkg/rpc/blob.go:31-98 | the failover loop computes the specified reply and updates exactly the visited circuits |
| Breaker.FirstAnswerWins | pkg/rpc/blob.go:31-98 | a decoded answer comes back exactly when an endpoint with a closed circuit gives one below 300 that can be decoded before any unbuildable request, and it is the first one's |
| Breaker.NothingAsked | pkg/rpc/blob.go:31-98 | no error and no answer come back exactly when there are endpoints and every circuit is open; with one closed, a nil error stands for a decoded answer |
| Registry.RediscoveredIsActive | internal/indexer/indexer.go:290-346 | after a rediscovery the chains are a subset of the active set, and equal to it exactly when every needed add succeeded |
| Registry.LastEntryStands | internal/indexer/indexer.go:311-317 | of two entries with one id that are neither deleted nor paused and have an endpoint, the later one stands |
| Registry.Indexer.Rediscover | internal/indexer/indexer.go:290-346 | the chains, client addresses and listeners after a rediscovery, in the fields of the list: a chain stays or comes exactly when an entry for it is neither deleted nor paused and has an endpoint, unless its add fails, and new clients ask at the first endpoint of the last such entry; nothing changes without a list |
| Registry.Indexer.AddChain | internal/indexer/indexer.go:224-253 | refuses a configured chain; a failed sync is an error that leaves the chain configured |
| Registry.Indexer.RemoveChain | internal/indexer/indexer.go:256-266 | drops the pool and the client, and leaves the listener |
| Registry.Indexer.AddChainLocked | internal/indexer/indexer.go:349-415 | adds chain and listener, and loses a running listener exactly when the chain already had one |
| Registry.Indexer.RemoveChainLocked | internal/indexer/indexer.go:418-444 | removes the chain with its client and stops its listener |
| Registry.Indexer.Close | internal/indexer/indexer.go:447-487 | stops every registered listener, closes every pool, keeps the clients |
| Registry.Perform | internal/indexer/indexer.go:224-487 | over every sequence of operations: chains ⊆ clients, listeners and cancels agree, no pool leaks, and without RemoveChain no running listener is lost |
| Registry.RemoveChainLosesListener | internal/indexer/indexer.go:256-266 | for any indexer, chain and address: RemoveChain followed by adding the chain again leaves a listener running that nobody can stop exactly when the chain had one and gets another |
| Mirror.GetCrossChainColumnNames | pkg/db/models/indexer/column.go:93-101 | the loop returns the global names of the synced columns, in order |
| Mirror.FilterCrossChainColumns | pkg/db/models/indexer/column.go:81-90 | keeps exactly the columns that are not skipped |
| Mirror.BuildTriggerColumns | pkg/db/postgres/crosschain/sync.go:56-78 | the two loops compute the source column of each global column |
| Mirror.SourceIsPreimage | pkg/db/postgres/crosschain/sync.go:56-78 | the i-th source column is the preimage of the i-th global name, for any definitions with distinct global names |
| Mirror.SourcesAreOwnExactly | pkg/db/postgres/crosschain/sync.go:56-78 | every synced definition feeds its global column from its own column exactly when no global name stands for two columns |
| Mirror.SourceIsLast | pkg/db/postgres/crosschain/sync.go:56-78 | a global column is filled from the last synced definition with its name |
| Mirror.RenameRowMeans | pkg/db/postgres/crosschain/sync.go:81-93 | the trigger's row has exactly the columns that are not skipped, each under its new name if it has one and its own otherwise, holding what the row holds under its own |
| Mirror.SameKey | pkg/db/postgres/crosschain/sync.go:81-93 | the global key, beside the chain id, is the chain row's key |
| Mirror.MirroredTable.SetupChainSync | pkg/db/postgres/crosschain/sync.go:16-44 | installs the trigger with those columns, or fails without a table |
| Mirror.MirroredTable.AddSyncedChain | internal/indexer/indexer.go:231-250 | a chain gets its table unless it has one, then its trigger |
| Mirror.MirroredTable.Upsert | pkg/db/postgres/crosschain/sync.go:99-110 | the trigger fires on inserts only, and touches no other chain's global rows |
| Mirror.MirroredTable.RemoveChainSync | pkg/db/postgres/crosschain/sync.go:260-312 | removes the trigger and one chain's global rows, and no other's |
| Mirror.PerformInserts | pkg/db/postgres/crosschain/sync.go:81-110 | any run of upserts from any state: each chain's table holds the last row of every key over what it held, and the triggers saw the rows inserted first under keys that were new; for a chain that had a trigger and no global rows these are its table, renamed, exactly when the table was empty and first and last rows look alike |
| Mirror.PauseAndResume | pkg/db/postgres/crosschain/sync.go:260-312 | after dropping the trigger with the global rows and installing it again, the global rows are the chain's table, after any run of upserts, exactly when the table was empty at the pause and first and last rows look alike |
| Mirror.GlobalRowsOfLog | pkg/db/postgres/crosschain/sync.go:81-110 | when what a run brings for a chain are the statements of its deliveries, the global rows are, for a key on which these agree, the renamed rows of the replayed table, whatever other chains insert in between |

## Left out
- ChainDb.ChainDb.IndexBlockWithData: does not model the lookup of the chain's pool under the registry's lock; an unknown chain is a fault.
- ChainDb.InsertAll: covers the fourteen change-detected tables, not blocks, txs, events, params, committee payments and summaries, whose rows carry no change detection.
- Store.ConvertToBlockData: covers the converters of those fourteen tables, not those of the block, its transactions, events and params.
- Store.CommitExtendsReplay: covers the fourteen tables as well.
- ChainDb.ConvertAndInsert: covers the same conversions and inserts.
- ChainDb.ChainDb.WriteBlockData: covers the same inserts.
- ChainDb.ChainDb.RemoveChainSync: is stated for drops and deletes that succeed; the source logs those that fail and goes on.
- EndToEnd.BackfillShowsChain: is stated for databases that workers and triggers brought about; deletes, which `Deletes` models, are not among the operations of `ChainDb`, but any set of listed heights is allowed.
- SigningInfo.ConvertNonSigners: does not model the column of the last signed height, which is stored and not compared.
- Deletes.DeletedIsMissing: is about the chain's own blocks table; the rows of the global one, which the gap query reads, stay.
- Deletes.DeleteAndReindex: is stated for the same fourteen tables of the chain; the statements of both delete methods name all twenty, and the global rows are not restored.
- Registry.Perform: does not model the lock, the reconnecting goroutines or the removal of global rows, which `Mirror` models for itself.
- Mirror.PerformInserts: is about upserts only; deletes fire no trigger (Delete shows that the global row stays), so that the global rows after deleting and indexing again are not claimed. ResyncTable, which does not apply the renames, is not modelled.
- Mirror.MirroredTable.SetupChainSync: is stated for one table; the source installs the triggers of all configured tables in one transaction.
- Mirror.MirroredTable.RemoveChainSync: is stated for one table, and for drops and deletes that succeed; the source logs those that fail and goes on.
- Registry.Indexer.RemoveChainLocked: does not remove the chain's cross-chain sync, which `Mirror` models for itself and whose failure the source only logs.
- Registry.Indexer.Close: closes the chains' pools; the admin and cross-chain databases and the joined errors are not modelled.
- RpcCache.Cache.Fetch: takes an error and a block of another height as one refusal; typed lookups of one key under two types do not occur in the source.
- Backfill.Run: does not model a concurrency limit of 0, on which the source blocks, nor heights beyond the range of bigint.
- Gaps.FindMissingHeights: does not model a negative limit, which the database rejects.
- Dex.ConvertDexDeposits: shares the row type of orders, whose locked height the deposit and withdrawal tables do not store.
- Columns that are stored but not compared (a holder's pool amount, seller addresses and data of an order, subsidised and retired flags, first and last evidence heights, a DEX item's committee) hold what was there at the height of the row, as `HolderRowAt`, `OrderRowAt`, `CommitteeMembership` and their like say; they may go stale afterwards, and nothing is claimed about them then. Height times and the height column itself, which is half of the row key, are not modelled.
- Keys that disappear from accounts, validators, pools, holders, orders and prices get no row, so nothing is claimed about dead keys there.
- The params converter has the shape of the supply converter with more columns.
- Rows of txs and events, whose unset key columns make rows of one block collide; block summary tallies.
- JSON and protobuf decoding (blobs arrive typed; a message that does not parse is one constructor), HTTP, WebSocket and Redis transport, logging and metrics.
- The continuous and worker modes of the backfill, the admin API, configuration and schema creation.
