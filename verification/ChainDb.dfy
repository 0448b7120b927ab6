/** The indexer's write path for one chain, as steps of the workers' protocol. */
module ChainDb {
  import opened Tables
  import opened ChangeDetection
  import opened Chain
  import opened Store
  import opened Triggers
  import opened GlobalStore
  import opened Indexing

  /** A chain's tables, and its rows in the global ones. */
  datatype Database = Database(tables: TableSet, globals: Globals)

  /** What writing one block makes of them; without triggers the global rows stay as they are. */
  ghost function CommitAndFire(db: Database, r: BlockRows, synced: bool): Database {
    Database(WriteBlock(db.tables, r), if synced then FireBlock(db.tables, db.globals, r) else db.globals)
  }

  /** The groups of statements of one transaction; any other number stands for none of them. */
  const STATEMENT_GROUPS := 14

  /** Inserts rows into one table, with its trigger or without. */
  method InsertRows<K(==), V>(t: Table<K, V>, g: Table<K, V>, h: nat, rows: seq<(K, V)>, synced: bool)
    returns (t': Table<K, V>, g': Table<K, V>)
    ensures t' == Upsert(t, h, rows) && g' == if synced then Fire(t, g, h, rows) else g
  {
    if synced {
      t', g' := InsertMirrored(t, g, h, rows);
    } else {
      t' := InsertBatch(t, h, rows);
      g' := g;
    }
  }

  /**
   Inserts one block's rows table by table inside a transaction, with the triggers that this sets off;
   statement group failAt fails and nothing is kept.
   */
  method InsertAll(db: Database, r: BlockRows, synced: bool, failAt: nat) returns (result: Option<Database>)
    ensures result == if failAt < STATEMENT_GROUPS then None else Some(CommitAndFire(db, r, synced))
  {
    var t, g := db.tables, db.globals;
    if failAt == 0 { return None; }
    var accounts, globalAccounts := InsertRows(t.accounts, g.accounts, r.height, r.accounts, synced);
    if failAt == 1 { return None; }
    var validators, globalValidators := InsertRows(t.validators, g.validators, r.height, r.validators, synced);
    if failAt == 2 { return None; }
    var nonSigning, globalNonSigning := InsertRows(t.nonSigning, g.nonSigning, r.height, r.nonSigning, synced);
    if failAt == 3 { return None; }
    var doubleSigning, globalDoubleSigning := InsertRows(t.doubleSigning, g.doubleSigning, r.height, r.doubleSigning, synced);
    if failAt == 4 { return None; }
    var pools, globalPools := InsertRows(t.pools, g.pools, r.height, r.pools, synced);
    if failAt == 5 { return None; }
    var orders, globalOrders := InsertRows(t.orders, g.orders, r.height, r.orders, synced);
    if failAt == 6 { return None; }
    var dexPrices := InsertBatch(t.dexPrices, r.height, r.dexPrices);
    if failAt == 7 { return None; }
    var dexOrders, globalDexOrders := InsertRows(t.dexOrders, g.dexOrders, r.height, r.dexOrders, synced);
    if failAt == 8 { return None; }
    var dexDeposits, globalDexDeposits := InsertRows(t.dexDeposits, g.dexDeposits, r.height, r.dexDeposits, synced);
    if failAt == 9 { return None; }
    var dexWithdrawals, globalDexWithdrawals := InsertRows(t.dexWithdrawals, g.dexWithdrawals, r.height, r.dexWithdrawals, synced);
    if failAt == 10 { return None; }
    var holders, globalHolders := InsertRows(t.holders, g.holders, r.height, r.holders, synced);
    if failAt == 11 { return None; }
    var supply := InsertBatch(t.supply, r.height, r.supply);
    if failAt == 12 { return None; }
    var committees := InsertBatch(t.committees, r.height, r.committees);
    if failAt == 13 { return None; }
    var members := InsertBatch(t.members, r.height, r.members);
    result := Some(Database(
      TableSet(accounts, validators, nonSigning, doubleSigning, pools, orders, dexPrices, dexOrders, dexDeposits,
               dexWithdrawals, holders, supply, committees, members),
      Globals(globalAccounts, globalValidators, globalNonSigning, globalDoubleSigning, globalPools, globalOrders,
              globalDexOrders, globalDexDeposits, globalDexWithdrawals, globalHolders)));
  }

  /** Converts a delivery and inserts its rows. */
  method ConvertAndInsert(db: Database, data: BlockData, synced: bool, failAt: nat, ghost chain: Chain, ghost d: Delivery)
    returns (result: Option<Database>)
    requires data == Delivered(chain, d)
    ensures result == if failAt < STATEMENT_GROUPS then None else Some(CommitAndFire(db, RowsOf(chain, d), synced))
  {
    var rows := ConvertToBlockData(data);
    assert rows == RowsOf(chain, d);
    result := InsertAll(db, rows, synced, failAt);
  }

  // ================================================================ what a log makes of the database

  /** One commit of the protocol is writing the rows of the delivery. */
  ghost predicate Commits(commit: Transaction<TableSet>, chain: Chain, t: TableSet, d: Delivery) {
    commit(t, d) == WriteBlock(t, RowsOf(chain, d))
  }

  ghost predicate IsCommit(commit: Transaction<TableSet>, chain: Chain) {
    forall t, d :: Commits(commit, chain, t, d)
  }

  /** On the chain's own tables, converting and inserting is the protocol's commit step. */
  lemma CommitExists(chain: Chain) returns (commit: Transaction<TableSet>)
    ensures IsCommit(commit, chain)
  {
    commit := CommitBlock(chain);
    forall t, d ensures Commits(commit, chain, t, d) {
    }
  }

  lemma CommitIsBlock(commit: Transaction<TableSet>, chain: Chain, log: seq<Delivery>)
    requires IsCommit(commit, chain)
    ensures CommitAll(commit, EMPTY, log) == ReplayAll(chain, log)
  {
    var replay := (l: seq<Delivery>) => ReplayAll(chain, l);
    ReplayNothing(chain);
    forall l: seq<Delivery>, d: Delivery ensures replay(l + [d]) == commit(replay(l), d) {
      CommitExtendsReplay(chain, l, d);
      assert Commits(commit, chain, ReplayAll(chain, l), d);
    }
    CommitAllUnique(commit, EMPTY, replay, log);
  }

  /** The global rows that a log leaves when the triggers were installed after an earlier one. */
  type Share = (seq<Delivery>, seq<Delivery>) -> Globals

  ghost predicate Fires(share: Share, chain: Chain, earlier: seq<Delivery>, log: seq<Delivery>, d: Delivery) {
    share(earlier, log + [d]) == FireBlock(ReplayAll(chain, earlier + log), share(earlier, log), RowsOf(chain, d))
  }

  ghost predicate IsShare(share: Share, chain: Chain) {
    (forall earlier :: share(earlier, []) == NO_GLOBALS) && forall earlier, log, d :: Fires(share, chain, earlier, log, d)
  }

  lemma ShareExists(chain: Chain) returns (share: Share)
    ensures IsShare(share, chain)
  {
    share := (earlier, log) => GlobalAll(chain, earlier, log);
    forall earlier: seq<Delivery> ensures share(earlier, []) == NO_GLOBALS {
      GlobalNothing(chain, earlier);
    }
    forall earlier, log, d ensures Fires(share, chain, earlier, log, d) {
      FireExtendsGlobal(chain, earlier, log, d);
    }
  }

  /** What grows in the same way from the same start is the same. */
  lemma {:induction false} SameGrowth<S>(f: seq<Delivery> -> S, g: seq<Delivery> -> S, step: (S, seq<Delivery>, Delivery) -> S, log: seq<Delivery>)
    requires f([]) == g([])
    requires forall l, d :: f(l + [d]) == step(f(l), l, d)
    requires forall l, d :: g(l + [d]) == step(g(l), l, d)
    ensures f(log) == g(log)
  {
    if log != [] {
      var rest, d := log[..|log| - 1], log[|log| - 1];
      SameGrowth(f, g, step, rest);
      assert log == rest + [d];
    }
  }

  /** So there is only one share. */
  lemma ShareUnique(share: Share, chain: Chain, earlier: seq<Delivery>, log: seq<Delivery>)
    requires IsShare(share, chain)
    ensures share(earlier, log) == GlobalAll(chain, earlier, log)
  {
    GlobalNothing(chain, earlier);
    forall l, d ensures share(earlier, l + [d]) == FireBlock(ReplayAll(chain, earlier + l), share(earlier, l), RowsOf(chain, d)) {
      assert Fires(share, chain, earlier, l, d);
    }
    forall l, d
      ensures GlobalAll(chain, earlier, l + [d]) == FireBlock(ReplayAll(chain, earlier + l), GlobalAll(chain, earlier, l), RowsOf(chain, d))
    {
      FireExtendsGlobal(chain, earlier, l, d);
    }
    SameGrowth(l => share(earlier, l), l => GlobalAll(chain, earlier, l),
               (g, l, d) => FireBlock(ReplayAll(chain, earlier + l), g, RowsOf(chain, d)), log);
  }

  lemma Committing(commit: Transaction<TableSet>, trace: seq<(nat, Action)>, s: State<TableSet>, w: nat, d: Delivery, s': State<TableSet>)
    requires Reached(commit, EMPTY, trace, s) && At(s, w) == Checked(d)
    requires s' == State(commit(s.tables, d), s.log + [d], s.blocks + {d.height}, s.summaries, s.progress, s.published,
                         s.workers[w := Committed(d.height)])
    ensures Reached(commit, EMPTY, trace + [(w, Commit)], s')
  {
    OneMoreStep(commit, EMPTY, trace, s, w, Commit, s');
  }

  lemma HeightsConcat(a: seq<Delivery>, b: seq<Delivery>)
    ensures Heights(a + b) == Heights(a) + Heights(b)
  {
    assert forall d :: d in a + b <==> d in a || d in b;
  }

  /** The global rows and listed heights are what the triggers, if any, made of the blocks since they were installed. */
  ghost predicate InSync(share: Share, log: seq<Delivery>, earlier: seq<Delivery>, since: seq<Delivery>, synced: bool,
                         globals: Globals, listed: set<nat>)
  {
    && log == earlier + since && (!synced ==> since == [])
    && globals == share(earlier, since) && listed == Heights(since) - Heights(earlier)
  }

  lemma InSyncWithTriggers(share: Share, log: seq<Delivery>, earlier: seq<Delivery>, since: seq<Delivery>,
                           globals: Globals, listed: set<nat>, d: Delivery)
    requires InSync(share, log, earlier, since, true, globals, listed)
    ensures InSync(share, log + [d], earlier, since + [d], true, share(earlier, since + [d]),
                   if d.height in Heights(log) then listed else listed + {d.height})
  {
    HeightsSnoc(since, d);
    HeightsConcat(earlier, since);
    assert (earlier + since) + [d] == earlier + (since + [d]);
  }

  lemma InSyncWithout(share: Share, chain: Chain, log: seq<Delivery>, earlier: seq<Delivery>, since: seq<Delivery>,
                      globals: Globals, listed: set<nat>, d: Delivery)
    requires IsShare(share, chain) && InSync(share, log, earlier, since, false, globals, listed)
    ensures InSync(share, log + [d], earlier + [d], since, false, globals, listed)
  {
    assert (earlier + [d]) + [] == (earlier + []) + [d];
    assert Heights([]) == {};
  }

  // ================================================================ faults

  /**
   What goes wrong with one block: the chain is not configured, the lookup fails, statement group failAt
   of the transaction fails, the summary, the progress record or the publication does.
   */
  datatype Faults = Faults(unconfigured: bool, check: bool, failAt: nat, summary: bool, progress: bool, publish: bool) {
    /** A fault that keeps the block out. */
    predicate Blocks() { unconfigured || check || failAt < STATEMENT_GROUPS }
  }

  /** One attempt to fetch and index a height. */
  datatype Attempt = Attempt(fetchFails: bool, withPrevious: bool, faults: Faults)

  /** What fails the attempt for a block that is not there yet. */
  predicate Fails(a: Attempt) {
    a.fetchFails || a.faults.Blocks() || a.faults.summary
  }

  /** The call ends before it looks at a block. */
  predicate Refused(data: Option<BlockData>, faults: Faults) {
    data.None? || faults.unconfigured || faults.check
  }

  /** The steps of one call after its commit, and after its look at the database. */
  function Finishes(faults: Faults): seq<Action> {
    if faults.summary then [Crash]
    else [Summarise, if faults.progress then SkipRecord else Record, if faults.publish then Crash else Publish]
  }

  function Transacts(faults: Faults): seq<Action> {
    if faults.failAt < STATEMENT_GROUPS then [Rollback] else [Commit] + Finishes(faults)
  }

  /** The steps of one call for a block that is in the database already, or is not. */
  function Does(d: Delivery, present: bool, faults: Faults): seq<Action> {
    [Check(d)] + if present then [] else Transacts(faults)
  }

  // ================================================================ one chain's database

  /** One chain's database, the node that its blocks are fetched from, and the workers that index them. */
  class ChainDb {
    const node: Chain
    var db: Database
    /** The triggers are installed on the chain's tables. */
    var synced: bool
    /** The heights in the chain's own blocks table, and its heights in the global one, which the backfill looks at. */
    var blocks: set<nat>
    var listed: set<nat>
    var summaries: set<nat>
    var progress: set<nat>
    var published: set<nat>
    var workers: map<nat, Worker>
    /** The deliveries committed so far, by whomever; and those of them before and since the triggers were installed. */
    ghost var log: seq<Delivery>
    ghost var earlier: seq<Delivery>
    ghost var since: seq<Delivery>
    /** The steps taken so far. */
    ghost var trace: seq<(nat, Action)>
    /** The heights that IndexBlock was called for. */
    ghost var attempted: seq<nat>
    ghost const commit: Transaction<TableSet>
    ghost const share: Share

    ghost function Protocol(): State<TableSet>
      reads this
    {
      State(db.tables, log, blocks, summaries, progress, published, workers)
    }

    /** Whatever was called: the database is in a state of a run of the workers' protocol. */
    ghost predicate Valid()
      reads this
    {
      IsCommit(commit, node) && IsShare(share, node) && Reached(commit, EMPTY, trace, Protocol())
    }

    /** The chain's global rows and listed heights are what the triggers made of the blocks since they were installed. */
    ghost predicate Synced()
      reads this`log, this`earlier, this`since, this`synced, this`db, this`listed
    {
      InSync(share, log, earlier, since, synced, db.globals, listed)
    }

    constructor (node: Chain)
      ensures Valid() && Synced() && !synced && this.node == node
      ensures blocks == {} && log == earlier == since == [] && attempted == [] && workers == map[]
    {
      ghost var commit := CommitExists(node);
      ghost var share := ShareExists(node);
      this.node, this.commit, this.share := node, commit, share;
      db := Database(EMPTY, NO_GLOBALS);
      synced, blocks, listed, summaries, progress, published, workers := false, {}, {}, {}, {}, {}, map[];
      log, earlier, since, trace, attempted := [], [], [], [], [];
    }

    /** So that what holds in every state of every run holds here. */
    lemma ProtocolIsSafe()
      requires Valid()
      ensures Safe(commit, EMPTY, Protocol())
    {
      ReachedIsSafe(commit, EMPTY, trace, Protocol());
    }

    lemma BlocksAreCommitted()
      requires Valid()
      ensures blocks == Heights(log)
    {
      ProtocolIsSafe();
    }

    lemma TablesAreReplayed()
      requires Valid()
      ensures db.tables == ReplayAll(node, log)
    {
      ProtocolIsSafe();
      CommitIsBlock(commit, node, log);
    }

    lemma GlobalsAreReplayed()
      requires Valid() && Synced()
      ensures db.globals == GlobalAll(node, earlier, since)
    {
      ShareUnique(share, node, earlier, since);
    }

    // ---------------------------------------------------------------- the triggers

    /** Installs the triggers, or installs them again, on whatever the tables hold; nothing is copied. */
    method SetupChainSync(fails: bool) returns (ok: bool)
      modifies this`synced
      ensures ok == !fails && synced == (old(synced) || ok)
      ensures old(Valid()) ==> Valid()
      ensures old(Synced()) ==> Synced()
    {
      if !fails {
        synced := true;
      }
      ok := !fails;
    }

    /** Drops the triggers and the chain's global rows, its listed heights among them. */
    method RemoveChainSync()
      requires Valid()
      modifies this`synced, this`db, this`listed, this`earlier, this`since
      ensures Valid() && Synced() && !synced && db.tables == old(db.tables) && earlier == log && listed == {}
    {
      synced, listed := false, {};
      db := db.(globals := NO_GLOBALS);
      earlier, since := log, [];
      assert log == earlier + since && Heights([]) == {};
    }

    // ---------------------------------------------------------------- the steps of a worker

    /** Looks the block up; the worker goes on with it when it is not there. */
    method CheckBlock(w: nat, d: Delivery) returns (present: bool)
      requires Valid() && PlaceOf(workers, w) == Idle
      modifies this`workers, this`trace
      ensures Valid() && present == (d.height in blocks) && trace == old(trace) + [(w, Check(d))]
      ensures workers == if present then old(workers) else old(workers)[w := Checked(d)]
    {
      ghost var before := Protocol();
      present := d.height in blocks;
      if !present {
        workers := workers[w := Checked(d)];
      }
      OneMoreStep(commit, EMPTY, trace, before, w, Check(d), Protocol());
      trace := trace + [(w, Check(d))];
    }

    /** What the transaction would leave behind. */
    method Transact(data: BlockData, failAt: nat, ghost d: Delivery) returns (result: Option<Database>)
      requires Valid() && data == Delivered(node, d)
      ensures result.None? <==> failAt < STATEMENT_GROUPS
      ensures result.Some? ==> result.value.tables == commit(db.tables, d)
      ensures result.Some? && Synced() ==> result.value.globals == if synced then share(earlier, since + [d]) else db.globals
    {
      result := ConvertAndInsert(db, data, synced, failAt, node, d);
      assert Commits(commit, node, db.tables, d);
      if Synced() {
        TablesAreReplayed();
        assert Fires(share, node, earlier, since, d);
      }
    }

    /** The transaction of a worker that found its block missing: the whole block or nothing. */
    method WriteBlockData(w: nat, data: BlockData, failAt: nat) returns (ok: bool)
      requires Valid() && PlaceOf(workers, w).Checked? && data == Delivered(node, PlaceOf(workers, w).d)
      modifies this`db, this`blocks, this`listed, this`log, this`earlier, this`since, this`workers, this`trace
      ensures Valid() && ok == (failAt >= STATEMENT_GROUPS) && Grew()
      ensures trace == old(trace) + [(w, if ok then Commit else Rollback)]
      ensures var d := PlaceOf(old(workers), w).d;
              && log == (if ok then old(log) + [d] else old(log))
              && blocks == (if ok then old(blocks) + {d.height} else old(blocks))
              && workers == old(workers)[w := if ok then Committed(d.height) else Idle]
    {
      ghost var d := PlaceOf(workers, w).d;
      var result := Transact(data, failAt, d);
      if result.None? {
        RollBack(w);
        return false;
      }
      ghost var before, after := StaysInSync(d, result.value);
      var more := listed;
      if synced && data.height !in blocks {
        more := listed + {data.height};
      }
      Keep(w, data.height, result.value, more, before, after);
      ok := true;
    }

    /** The blocks table's own trigger lists the height if its row is new. */
    ghost function MoreListed(height: nat): set<nat>
      reads this
    {
      if synced && height !in blocks then listed + {height} else listed
    }

    /** The delivery counts to those before the triggers or to those since, which stays in sync. */
    lemma StaysInSync(d: Delivery, result: Database) returns (before: seq<Delivery>, after: seq<Delivery>)
      requires Valid() && (Synced() ==> result.globals == if synced then share(earlier, since + [d]) else db.globals)
      ensures synced ==> before == earlier
      ensures Synced() ==> InSync(share, log + [d], before, after, synced, result.globals, MoreListed(d.height))
    {
      BlocksAreCommitted();
      if synced {
        before, after := earlier, since + [d];
        if Synced() {
          InSyncWithTriggers(share, log, earlier, since, db.globals, listed, d);
        }
      } else {
        before, after := earlier + [d], since;
        if Synced() {
          InSyncWithout(share, node, log, earlier, since, db.globals, listed, d);
        }
      }
    }

    method RollBack(w: nat)
      requires Valid() && PlaceOf(workers, w).Checked?
      modifies this`workers, this`trace
      ensures Valid() && workers == old(workers)[w := Idle] && trace == old(trace) + [(w, Rollback)]
    {
      ghost var before := Protocol();
      workers := workers[w := Idle];
      OneMoreStep(commit, EMPTY, trace, before, w, Rollback, Protocol());
      trace := trace + [(w, Rollback)];
    }

    /** The transaction is committed, with what the triggers made of it. */
    method Keep(w: nat, height: nat, result: Database, more: set<nat>, ghost before: seq<Delivery>, ghost after: seq<Delivery>)
      requires Valid() && PlaceOf(workers, w).Checked? && height == PlaceOf(workers, w).d.height
      requires result.tables == commit(db.tables, PlaceOf(workers, w).d) && listed <= more <= listed + {height}
      requires Synced() ==> InSync(share, log + [PlaceOf(workers, w).d], before, after, synced, result.globals, more)
      requires synced ==> before == earlier
      modifies this`db, this`blocks, this`listed, this`log, this`earlier, this`since, this`workers, this`trace
      ensures Valid() && Grew() && trace == old(trace) + [(w, Commit)]
      ensures log == old(log) + [PlaceOf(old(workers), w).d] && blocks == old(blocks) + {height}
      ensures workers == old(workers)[w := Committed(height)]
    {
      ghost var was, d := Protocol(), PlaceOf(workers, w).d;
      db, blocks, listed, workers := result, blocks + {height}, more, workers[w := Committed(height)];
      log, earlier, since := log + [d], before, after;
      Committing(commit, trace, was, w, d, Protocol());
      trace := trace + [(w, Commit)];
    }

    /** What never goes back, and what the triggers keep, while workers go on. */
    twostate predicate Grew()
      reads this
    {
      && old(log) <= log && old(blocks) <= blocks && old(summaries) <= summaries && old(progress) <= progress && old(published) <= published
      && old(listed) <= listed <= old(listed) + blocks
      && synced == old(synced) && (synced ==> earlier == old(earlier)) && (old(Synced()) ==> Synced())
    }

    method BuildBlockSummary(w: nat)
      requires Valid() && PlaceOf(workers, w).Committed?
      modifies this`summaries, this`workers, this`trace
      ensures Valid() && trace == old(trace) + [(w, Summarise)]
      ensures var h := PlaceOf(old(workers), w).height;
              summaries == old(summaries) + {h} && workers == old(workers)[w := Summarised(h)]
    {
      ghost var before := Protocol();
      var h := PlaceOf(workers, w).height;
      summaries, workers := summaries + {h}, workers[w := Summarised(h)];
      OneMoreStep(commit, EMPTY, trace, before, w, Summarise, Protocol());
      trace := trace + [(w, Summarise)];
    }

    /** A progress record that fails is only logged. */
    method UpdateProgress(w: nat, fails: bool)
      requires Valid() && PlaceOf(workers, w).Summarised?
      modifies this`progress, this`workers, this`trace
      ensures Valid() && trace == old(trace) + [(w, if fails then SkipRecord else Record)]
      ensures var h := PlaceOf(old(workers), w).height;
              progress == (if fails then old(progress) else old(progress) + {h}) && workers == old(workers)[w := Recorded(h)]
    {
      ghost var before, a := Protocol(), if fails then SkipRecord else Record;
      var h := PlaceOf(workers, w).height;
      if !fails {
        progress := progress + {h};
      }
      workers := workers[w := Recorded(h)];
      OneMoreStep(commit, EMPTY, trace, before, w, a, Protocol());
      trace := trace + [(w, a)];
    }

    /** So is a publication that fails. */
    method PublishBlock(w: nat, fails: bool)
      requires Valid() && PlaceOf(workers, w).Recorded?
      modifies this`published, this`workers, this`trace
      ensures Valid() && trace == old(trace) + [(w, if fails then Crash else Publish)]
      ensures published == (if fails then old(published) else old(published) + {PlaceOf(old(workers), w).height})
      ensures workers == old(workers)[w := Idle]
    {
      ghost var before, a := Protocol(), if fails then Crash else Publish;
      if !fails {
        published := published + {PlaceOf(workers, w).height};
      }
      workers := workers[w := Idle];
      OneMoreStep(commit, EMPTY, trace, before, w, a, Protocol());
      trace := trace + [(w, a)];
    }

    /** An error, or a crash, ends the attempt wherever it is. */
    method GiveUp(w: nat)
      requires Valid()
      modifies this`workers, this`trace
      ensures Valid() && trace == old(trace) + [(w, Crash)] && workers == old(workers)[w := Idle]
    {
      ghost var before := Protocol();
      workers := workers[w := Idle];
      OneMoreStep(commit, EMPTY, trace, before, w, Crash, Protocol());
      trace := trace + [(w, Crash)];
    }

    // ---------------------------------------------------------------- the other workers

    /** One step of worker v that is no transaction. */
    method LightStep(v: nat, d: Delivery, fails: bool, stops: bool)
      requires Valid() && (PlaceOf(workers, v).Checked? ==> stops)
      modifies this`summaries, this`progress, this`published, this`workers, this`trace
      ensures Valid() && old(summaries) <= summaries && old(progress) <= progress && old(published) <= published
      ensures |trace| == |old(trace)| + 1 && trace[..|old(trace)|] == old(trace) && trace[|old(trace)|].0 == v
      ensures forall w :: w != v ==> PlaceOf(workers, w) == PlaceOf(old(workers), w)
    {
      if stops {
        GiveUp(v);
      } else {
        match PlaceOf(workers, v) {
          case Idle =>
            var present := CheckBlock(v, d);
          case Committed(_) =>
            BuildBlockSummary(v);
          case Summarised(_) =>
            UpdateProgress(v, fails);
          case Recorded(_) =>
            PublishBlock(v, fails);
        }
      }
    }

    /** One step of worker v, whatever it is at; worker w is another one. */
    method AnyStep(v: nat, ghost w: nat)
      requires Valid() && v != w
      modifies this`db, this`blocks, this`listed, this`log, this`earlier, this`since, this`summaries, this`progress,
               this`published, this`workers, this`trace
      ensures Valid() && Grew()
      ensures PlaceOf(workers, w) == PlaceOf(old(workers), w) && Own(trace, w) == Own(old(trace), w)
    {
      var d: Delivery, failAt: nat, fails: bool, stops: bool := *, *, *, *;
      ghost var before := trace;
      if PlaceOf(workers, v).Checked? && !stops {
        var ok := WriteBlockData(v, Delivered(node, PlaceOf(workers, v).d), failAt);
      } else {
        LightStep(v, d, fails, stops);
      }
      OwnSnoc(before, v, trace[|before|].1, w);
      assert trace == before + [(v, trace[|before|].1)];
    }

    /** Whatever the other workers do meanwhile: any number of steps, each of any of them. */
    method OtherWorkers(w: nat)
      requires Valid()
      modifies this`db, this`blocks, this`listed, this`log, this`earlier, this`since, this`summaries, this`progress,
               this`published, this`workers, this`trace
      ensures Valid() && Grew()
      ensures PlaceOf(workers, w) == PlaceOf(old(workers), w) && Own(trace, w) == Own(old(trace), w)
    {
      var n: nat := *;
      while n > 0
        invariant Valid() && Grew()
        invariant PlaceOf(workers, w) == PlaceOf(old(workers), w) && Own(trace, w) == Own(old(trace), w)
      {
        var v: nat := *;
        if v != w {
          AnyStep(v, w);
        }
        n := n - 1;
      }
    }

    // ---------------------------------------------------------------- one worker's calls

    // Each step of the worker comes after whatever the others do meanwhile.

    method WriteTurn(w: nat, data: BlockData, d: Delivery, failAt: nat) returns (ok: bool)
      requires Valid() && PlaceOf(workers, w) == Checked(d) && data == Delivered(node, d)
      modifies this`db, this`blocks, this`listed, this`log, this`earlier, this`since, this`summaries, this`progress,
               this`published, this`workers, this`trace
      ensures Valid() && Grew() && ok == (failAt >= STATEMENT_GROUPS)
      ensures Own(trace, w) == Own(old(trace), w) + [if ok then Commit else Rollback]
      ensures PlaceOf(workers, w) == if ok then Committed(d.height) else Idle
      ensures ok ==> d in log && d.height in blocks
    {
      OtherWorkers(w);
      OwnSnoc(trace, w, if failAt >= STATEMENT_GROUPS then Commit else Rollback, w);
      ok := WriteBlockData(w, data, failAt);
      assert ok ==> log[|log| - 1] == d;
    }

    /** An error from the summary leaves the block in. */
    method SummaryTurn(w: nat, h: nat, fails: bool) returns (ok: bool)
      requires Valid() && PlaceOf(workers, w) == Committed(h)
      modifies this`db, this`blocks, this`listed, this`log, this`earlier, this`since, this`summaries, this`progress,
               this`published, this`workers, this`trace
      ensures Valid() && Grew() && ok == !fails
      ensures Own(trace, w) == Own(old(trace), w) + [if ok then Summarise else Crash]
      ensures PlaceOf(workers, w) == if ok then Summarised(h) else Idle
      ensures ok ==> h in summaries
    {
      OtherWorkers(w);
      OwnSnoc(trace, w, if fails then Crash else Summarise, w);
      if fails {
        GiveUp(w);
        return false;
      }
      BuildBlockSummary(w);
      ok := true;
    }

    method RecordTurn(w: nat, h: nat, fails: bool)
      requires Valid() && PlaceOf(workers, w) == Summarised(h)
      modifies this`db, this`blocks, this`listed, this`log, this`earlier, this`since, this`summaries, this`progress,
               this`published, this`workers, this`trace
      ensures Valid() && Grew() && PlaceOf(workers, w) == Recorded(h)
      ensures Own(trace, w) == Own(old(trace), w) + [if fails then SkipRecord else Record]
      ensures fails || h in progress
    {
      OtherWorkers(w);
      OwnSnoc(trace, w, if fails then SkipRecord else Record, w);
      UpdateProgress(w, fails);
    }

    method PublishTurn(w: nat, h: nat, fails: bool)
      requires Valid() && PlaceOf(workers, w) == Recorded(h)
      modifies this`db, this`blocks, this`listed, this`log, this`earlier, this`since, this`summaries, this`progress,
               this`published, this`workers, this`trace
      ensures Valid() && Grew() && PlaceOf(workers, w) == Idle
      ensures Own(trace, w) == Own(old(trace), w) + [if fails then Crash else Publish]
      ensures fails || h in published
    {
      OtherWorkers(w);
      OwnSnoc(trace, w, if fails then Crash else Publish, w);
      PublishBlock(w, fails);
    }

    /** What follows the commit of a block; errors from recording and publishing do not fail the call. */
    method FinishBlock(w: nat, h: nat, faults: Faults) returns (ok: bool)
      requires Valid() && PlaceOf(workers, w) == Committed(h)
      modifies this`db, this`blocks, this`listed, this`log, this`earlier, this`since, this`summaries, this`progress,
               this`published, this`workers, this`trace
      ensures Valid() && Grew() && PlaceOf(workers, w) == Idle && ok == !faults.summary
      ensures Own(trace, w) == Own(old(trace), w) + Finishes(faults)
      ensures ok ==> h in summaries && (!faults.progress ==> h in progress) && (!faults.publish ==> h in published)
    {
      ok := SummaryTurn(w, h, faults.summary);
      if ok {
        RecordTurn(w, h, faults.progress);
        PublishTurn(w, h, faults.publish);
      }
    }

    /** The block was not there when the worker looked. */
    method IndexMissing(w: nat, data: BlockData, d: Delivery, faults: Faults) returns (ok: bool)
      requires Valid() && PlaceOf(workers, w) == Checked(d) && data == Delivered(node, d)
      modifies this`db, this`blocks, this`listed, this`log, this`earlier, this`since, this`summaries, this`progress,
               this`published, this`workers, this`trace
      ensures Valid() && Grew() && PlaceOf(workers, w) == Idle
      ensures Own(trace, w) == Own(old(trace), w) + Transacts(faults)
      ensures ok == !(faults.failAt < STATEMENT_GROUPS || faults.summary)
      ensures faults.failAt >= STATEMENT_GROUPS ==> d in log && d.height in blocks
      ensures ok ==> d.height in summaries && (!faults.progress ==> d.height in progress) && (!faults.publish ==> d.height in published)
    {
      ok := WriteTurn(w, data, d, faults.failAt);
      if ok {
        ok := FinishBlock(w, d.height, faults);
      }
    }

    /**
     Indexes a delivered block, beside other workers. Without data, or for a chain that is not configured,
     nothing happens. A block already there is skipped, whatever became of its summary. An error from the
     transaction leaves the block out unless someone else writes it. Whatever the others do, the worker
     takes the steps of Does, and no other.
     */
    method IndexBlockWithData(w: nat, data: Option<BlockData>, d: Delivery, faults: Faults) returns (ok: bool)
      requires Valid() && PlaceOf(workers, w) == Idle && (data.Some? ==> data.value == Delivered(node, d))
      modifies this`db, this`blocks, this`listed, this`log, this`earlier, this`since, this`summaries, this`progress,
               this`published, this`workers, this`trace
      ensures Valid() && Grew() && PlaceOf(workers, w) == Idle
      ensures Refused(data, faults) || d.height in old(blocks) ==> Protocol() == old(Protocol())
      ensures ok == (!Refused(data, faults) && (d.height in old(blocks) || !(faults.Blocks() || faults.summary)))
      ensures ok <==> data.Some? && !faults.unconfigured && !faults.check &&
                      (d.height in old(blocks) || (faults.failAt >= 14 && !faults.summary))
      ensures Own(trace, w) == Own(old(trace), w) + if Refused(data, faults) then [] else Does(d, d.height in old(blocks), faults)
      ensures ok ==> d.height in blocks
      ensures !Refused(data, faults) && d.height !in old(blocks) && !faults.Blocks() ==> d in log
      ensures d.height !in old(blocks) && ok ==>
              && d.height in summaries && (!faults.progress ==> d.height in progress) && (!faults.publish ==> d.height in published)
    {
      if Refused(data, faults) {
        return false;
      }
      OwnSnoc(trace, w, Check(d), w);
      var present := CheckBlock(w, d);
      if present {
        return true;
      }
      ok := IndexMissing(w, data.value, d, faults);
    }

    /** Fetches a block from the node and indexes it; the node may or may not send the state before it. */
    method IndexBlock(w: nat, height: nat, attempt: Attempt) returns (ok: bool)
      requires Valid() && PlaceOf(workers, w) == Idle
      modifies this
      ensures Valid() && Grew() && PlaceOf(workers, w) == Idle
      ensures attempted == old(attempted) + [height]
      ensures ok ==> height in blocks
      ensures !Fails(attempt) ==> ok
      ensures attempt.fetchFails || attempt.faults.unconfigured || attempt.faults.check ==> !ok && Protocol() == old(Protocol())
      ensures height !in old(blocks) ==>
                (ok <==> !attempt.fetchFails && !attempt.faults.unconfigured && !attempt.faults.check &&
                         attempt.faults.failAt >= 14 && !attempt.faults.summary)
      ensures height in old(blocks) ==> (ok <==> !attempt.fetchFails && !attempt.faults.unconfigured && !attempt.faults.check)
      ensures ok && height !in old(blocks) ==> Delivery(height, attempt.withPrevious) in log
    {
      attempted := attempted + [height];
      if attempt.fetchFails {
        return false;
      }
      var d := Delivery(height, attempt.withPrevious);
      ok := IndexBlockWithData(w, Some(Delivered(node, d)), d, attempt.faults);
    }
  }
}
