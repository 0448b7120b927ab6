/** The backfill: batches of heights that are not listed, attempted until the range is done, beside other workers. */
module Backfill {
  import opened Tables
  import opened ChangeDetection
  import opened Indexing
  import opened ChainDb
  import opened Gaps

  /** Zero heights mean the defaults: from height 1, up to the head of the chain. */
  datatype Config = Config(startHeight: nat, endHeight: nat, batchSize: nat, dryRun: bool)

  /** The errors are the heights whose attempt failed. */
  datatype Result = Result(totalMissing: nat, totalProcessed: nat, totalSucceeded: nat, totalFailed: nat, errors: seq<nat>)

  /** What happens to the i-th batch of a run, and to the attempt at a height. */
  datatype Environment = Environment(cancelled: nat -> bool, queryFails: nat -> bool, attempts: nat -> Attempt)

  datatype Outcome = Aborted | Cancelled(result: Result) | Finished(result: Result)

  ghost predicate Covered(blocks: set<nat>, start: nat, end: nat) {
    forall h :: start <= h <= end ==> h in blocks
  }

  // ================================================================ counting

  lemma {:induction false} DistinctCount(s: seq<nat>)
    requires Distinct(s)
    ensures |Set(s)| == |s|
  {
    if s == [] {
      assert Set(s) == {};
    } else {
      var n := |s| - 1;
      DistinctCount(s[..n]);
      assert forall h :: h in s <==> h in s[..n] || h == s[n];
      assert Set(s) == Set(s[..n]) + {s[n]};
      assert s[n] !in s[..n];
    }
  }

  lemma {:induction false} DistinctOnce(s: seq<nat>)
    requires Distinct(s)
    ensures multiset(Set(s)) == multiset(s)
  {
    if s != [] {
      var n := |s| - 1;
      DistinctOnce(s[..n]);
      assert s == s[..n] + [s[n]];
      assert forall h :: h in s <==> h in s[..n] || h == s[n];
      assert Set(s) == Set(s[..n]) + {s[n]};
      assert s[n] !in s[..n];
    }
  }

  /** Between the two states each of the heights was attempted as often as it is listed, and no other. */
  ghost predicate Attempted(before: seq<nat>, after: seq<nat>, heights: seq<nat>) {
    multiset(after) == multiset(before) + multiset(heights)
  }

  ghost predicate AllBut(before: seq<nat>, after: seq<nat>, heights: seq<nat>, remaining: set<nat>) {
    multiset(after) + multiset(remaining) == multiset(before) + multiset(heights)
  }

  lemma NoAttemptYet(before: seq<nat>, heights: seq<nat>)
    requires Distinct(heights)
    ensures AllBut(before, before, heights, Set(heights))
  {
    DistinctOnce(heights);
  }

  lemma OneMoreAttempt(before: seq<nat>, after: seq<nat>, heights: seq<nat>, remaining: set<nat>, height: nat)
    requires AllBut(before, after, heights, remaining) && height in remaining
    ensures AllBut(before, after + [height], heights, remaining - {height})
  {
    assert remaining == (remaining - {height}) + {height};
  }

  lemma AttemptedBatches(before: seq<nat>, between: seq<nat>, after: seq<nat>, tried: seq<nat>, heights: seq<nat>)
    requires Attempted(before, between, tried) && Attempted(between, after, heights)
    ensures Attempted(before, after, tried + heights)
  {
  }

  lemma {:induction false} SubsetCount(small: set<nat>, large: set<nat>)
    requires small <= large
    ensures |small| <= |large|
  {
    if small != {} {
      var h :| h in small;
      SubsetCount(small - {h}, large - {h});
    }
  }

  /** The heights that are listed or in the chain's own blocks table. */
  ghost function Seen(db: ChainDb): set<nat>
    reads db
  {
    db.listed + db.blocks
  }

  // ================================================================ one batch

  /** Every height of the batch is still to be attempted, or is there, or failed. */
  ghost predicate Attempting(heights: seq<nat>, remaining: set<nat>, blocks: set<nat>, errors: seq<nat>) {
    && remaining <= Set(heights) && Distinct(errors)
    && (forall h :: h in errors ==> h in heights && h !in remaining)
    && (forall h :: h in heights ==> h in remaining || h in blocks || h in errors)
  }

  lemma OneMoreAttempted(heights: seq<nat>, remaining: set<nat>, blocks: set<nat>, more: set<nat>, errors: seq<nat>, height: nat, ok: bool)
    requires Attempting(heights, remaining, blocks, errors) && height in remaining && blocks <= more && (ok ==> height in more)
    ensures Attempting(heights, remaining - {height}, more, if ok then errors else errors + [height])
  {
  }

  /** One goroutine of a batch, after whatever the other workers did. */
  method AttemptHeight(db: ChainDb, w: nat, height: nat, attempt: Attempt) returns (ok: bool)
    requires db.Valid() && PlaceOf(db.workers, w) == Idle
    modifies db
    ensures db.Valid() && PlaceOf(db.workers, w) == Idle && db.Grew()
    ensures db.attempted == old(db.attempted) + [height]
    ensures if ok then height in db.blocks else Fails(attempt)
  {
    db.OtherWorkers(w);
    ok := db.IndexBlock(w, height, attempt);
  }

  /**
   Attempts every height of a batch once, in whatever order the goroutines run, beside other workers.
   Nothing stops at a failed height.
   */
  method ProcessBatch(db: ChainDb, w: nat, heights: seq<nat>, attempts: nat -> Attempt) returns (succeeded: nat, errors: seq<nat>)
    requires db.Valid() && PlaceOf(db.workers, w) == Idle && Increasing(heights)
    modifies db
    ensures db.Valid() && PlaceOf(db.workers, w) == Idle && db.Grew()
    ensures succeeded + |errors| == |heights|
    ensures Distinct(errors) && forall h :: h in errors ==> h in heights && Fails(attempts(h))
    ensures forall h :: h in heights ==> h in db.blocks || h in errors
    ensures Attempted(old(db.attempted), db.attempted, heights)
  {
    var remaining := Set(heights);
    DistinctCount(heights);
    NoAttemptYet(db.attempted, heights);
    succeeded, errors := 0, [];
    while remaining != {}
      invariant db.Valid() && PlaceOf(db.workers, w) == Idle && db.Grew()
      invariant succeeded + |errors| + |remaining| == |heights|
      invariant Attempting(heights, remaining, db.blocks, errors) && forall h :: h in errors ==> Fails(attempts(h))
      invariant AllBut(old(db.attempted), db.attempted, heights, remaining)
      decreases |remaining|
    {
      var height :| height in remaining;
      ghost var attempted, blocks, failed := db.attempted, db.blocks, errors;
      var ok := AttemptHeight(db, w, height, attempts(height));
      if ok {
        succeeded := succeeded + 1;
      } else {
        errors := errors + [height];
      }
      OneMoreAttempt(old(db.attempted), attempted, heights, remaining, height);
      OneMoreAttempted(heights, remaining, blocks, db.blocks, failed, height, ok);
      remaining := remaining - {height};
    }
  }

  /** The heights of a batch: missing ones, lowest first, none left out below the last of them. */
  ghost predicate IsBatch(blocks: set<nat>, cursor: nat, end: nat, heights: seq<nat>) {
    && Increasing(heights)
    && (forall i :: 0 <= i < |heights| ==> cursor <= heights[i] <= end && heights[i] !in blocks)
    && (heights != [] ==> forall h :: cursor <= h <= heights[|heights| - 1] ==> h in blocks || h in heights)
  }

  lemma BatchIsMissing(blocks: set<nat>, cursor: nat, end: nat, heights: seq<nat>)
    requires heights <= MissingIn(blocks, cursor, end + 1)
    ensures IsBatch(blocks, cursor, end, heights)
  {
    var all := MissingIn(blocks, cursor, end + 1);
    MissingIsMissing(blocks, cursor, end + 1);
    forall i | 0 <= i < |heights|
      ensures cursor <= heights[i] <= end && heights[i] !in blocks
    {
      assert heights[i] == all[i] && all[i] in all;
    }
    if heights != [] {
      forall h | cursor <= h <= heights[|heights| - 1] && h !in blocks
        ensures h in heights
      {
        BatchHasNoHoles(all, heights, h);
      }
    }
  }

  lemma BatchHasNoHoles(all: seq<nat>, heights: seq<nat>, h: nat)
    requires Increasing(all) && heights <= all && heights != []
    requires h in all && h <= heights[|heights| - 1]
    ensures h in heights
  {
    var i :| 0 <= i < |all| && all[i] == h;
    assert heights[|heights| - 1] == all[|heights| - 1];
    assert i < |heights| && heights[i] == h;
  }

  lemma EmptyBatchCovers(blocks: set<nat>, cursor: nat, end: nat)
    requires MissingIn(blocks, cursor, end + 1) == []
    ensures Covered(blocks, cursor, end)
  {
    MissingIsMissing(blocks, cursor, end + 1);
  }

  // ================================================================ the whole run

  /** What the run did so far: every height below the cursor was there already or was attempted, none twice. */
  ghost predicate Exact(before: set<nat>, blocks: set<nat>, start: nat, cursor: nat, end: nat, tried: seq<nat>, errors: seq<nat>) {
    && before <= blocks && start <= cursor
    && Increasing(tried) && Distinct(errors)
    && (forall h :: h in tried ==> start <= h < cursor && h <= end && h !in before)
    && (forall h :: h in errors ==> h in tried)
    && (forall h :: start <= h < cursor ==> h in blocks || h in tried)
    && (forall h :: h in tried ==> h in blocks || h in errors)
  }

  lemma ExactAfterBatch(before: set<nat>, listed: set<nat>, queried: set<nat>, blocks: set<nat>, start: nat, cursor: nat, end: nat,
                        tried: seq<nat>, errors: seq<nat>, heights: seq<nat>, batchErrors: seq<nat>)
    requires Exact(before, queried, start, cursor, end, tried, errors) && before <= listed <= queried <= blocks
    requires IsBatch(listed, cursor, end, heights) && heights != []
    requires Distinct(batchErrors) && forall h :: h in batchErrors ==> h in heights
    requires forall h :: h in heights ==> h in blocks || h in batchErrors
    ensures Exact(before, blocks, start, heights[|heights| - 1] + 1, end, tried + heights, errors + batchErrors)
  {
    assert forall h :: h in heights ==> cursor <= h <= heights[|heights| - 1];
    forall i, j | 0 <= i < j < |tried + heights|
      ensures (tried + heights)[i] < (tried + heights)[j]
    {
      if i < |tried| <= j {
        assert tried[i] in tried && heights[j - |tried|] in heights;
      }
    }
    forall i, j | 0 <= i < j < |errors + batchErrors|
      ensures (errors + batchErrors)[i] != (errors + batchErrors)[j]
    {
      if i < |errors| <= j {
        assert errors[i] in errors && batchErrors[j - |errors|] in batchErrors;
      }
    }
  }

  /** Nothing but a missing height is attempted; and all of them are, when nobody else wrote one first. */
  lemma ExactCount(before: set<nat>, blocks: set<nat>, start: nat, cursor: nat, end: nat, tried: seq<nat>, errors: seq<nat>)
    requires Exact(before, blocks, start, cursor, end, tried, errors)
    ensures |tried| <= |MissingIn(before, start, end + 1)|
    ensures end < cursor && (forall h :: start <= h <= end && h in blocks ==> h in before || h in tried) ==>
            |tried| == |MissingIn(before, start, end + 1)|
  {
    var missing := MissingIn(before, start, end + 1);
    MissingIsMissing(before, start, end + 1);
    DistinctCount(tried);
    DistinctCount(missing);
    SubsetCount(Set(tried), Set(missing));
    if end < cursor && forall h :: start <= h <= end && h in blocks ==> h in before || h in tried {
      assert Set(tried) == Set(missing);
    }
  }

  lemma MissingCount(blocks: set<nat>, start: nat, end: nat)
    ensures |MissingIn(blocks, start, end + 1)| == |set h | start <= h <= end && h !in blocks|
  {
    var missing := MissingIn(blocks, start, end + 1);
    MissingIsMissing(blocks, start, end + 1);
    DistinctCount(missing);
    assert Set(missing) == set h | start <= h <= end && h !in blocks;
  }

  /** The counters agree with each other and with what was attempted, whichever way the run ended. */
  ghost predicate Accounted(before: set<nat>, blocks: set<nat>, start: nat, end: nat, tried: seq<nat>, r: Result) {
    && r.totalMissing == |MissingIn(before, start, end + 1)|
    && r.totalProcessed == |tried| <= r.totalMissing
    && r.totalProcessed == r.totalSucceeded + r.totalFailed
    && r.totalFailed == |r.errors|
    && Increasing(tried) && Distinct(r.errors)
    && (forall h :: h in tried ==> start <= h <= end && h !in before && (h in blocks || h in r.errors))
    && (forall h :: h in r.errors ==> h in tried)
  }

  /** Nobody but this run wrote a height of the range. */
  ghost predicate Undisturbed(before: set<nat>, blocks: set<nat>, start: nat, end: nat, tried: seq<nat>) {
    forall h :: start <= h <= end && h in blocks ==> h in before || h in tried
  }

  /** The run walked the whole range: a height is still missing only where the attempt failed. */
  ghost predicate Complete(before: set<nat>, blocks: set<nat>, start: nat, end: nat, tried: seq<nat>, r: Result) {
    && (forall h :: start <= h <= end ==> h in blocks || h in r.errors)
    && (Undisturbed(before, blocks, start, end, tried) ==> r.totalProcessed == r.totalMissing)
  }

  lemma ExactWhenDone(before: set<nat>, blocks: set<nat>, start: nat, cursor: nat, end: nat, tried: seq<nat>, errors: seq<nat>)
    requires Exact(before, blocks, start, cursor, end, tried, errors)
    requires end < cursor || Covered(blocks, cursor, end)
    ensures Undisturbed(before, blocks, start, end, tried) ==> |tried| == |MissingIn(before, start, end + 1)|
    ensures forall h :: start <= h <= end ==> h in blocks || h in errors
  {
    if cursor <= end {
      ExactCount(before, blocks, start, end + 1, end, tried, errors);
    } else {
      ExactCount(before, blocks, start, cursor, end, tried, errors);
    }
  }

  /** How the batch loop ended, with the counters so far. */
  datatype Batches = Batches(aborted: bool, cancelled: bool, succeeded: nat, failed: nat, errors: seq<nat>)

  /**
   Batch after batch of what is still missing, from a cursor that moves past every height found. The ghost
   results list the heights attempted, in order of their batches, and say where the cursor stopped.
   */
  method ProcessBatches(db: ChainDb, w: nat, start: nat, end: nat, batchSize: nat, env: Environment)
    returns (b: Batches, ghost tried: seq<nat>, ghost cursor: nat)
    requires db.Valid() && PlaceOf(db.workers, w) == Idle
    modifies db
    ensures db.Valid() && PlaceOf(db.workers, w) == Idle && db.Grew()
    ensures Exact(old(db.listed), Seen(db), start, cursor, end, tried, b.errors)
    ensures |tried| == b.succeeded + b.failed && b.failed == |b.errors|
    ensures Attempted(old(db.attempted), db.attempted, tried)
    ensures b.aborted ==> exists i :: env.queryFails(i)
    ensures b.cancelled ==> exists i :: env.cancelled(i)
    ensures !b.aborted && !b.cancelled ==> end < cursor || batchSize == 0 || Covered(Seen(db), cursor, end)
    ensures batchSize == 0 ==> tried == [] && db.log == old(db.log)
    ensures forall h :: h in b.errors ==> Fails(env.attempts(h))
  {
    tried, cursor := [], start;
    var succeeded: nat, failed: nat, errors := 0, 0, [];
    var currentStart, batch: nat := start, 0;
    while currentStart <= end
      invariant db.Valid() && PlaceOf(db.workers, w) == Idle && db.Grew() && cursor == currentStart
      invariant Exact(old(db.listed), Seen(db), start, currentStart, end, tried, errors)
      invariant |tried| == succeeded + failed && failed == |errors|
      invariant Attempted(old(db.attempted), db.attempted, tried)
      invariant batchSize == 0 ==> tried == [] && db.log == old(db.log)
      invariant forall h :: h in errors ==> Fails(env.attempts(h))
      decreases end + 1 - currentStart
    {
      if env.cancelled(batch) {
        return Batches(false, true, succeeded, failed, errors), tried, cursor;
      }
      if env.queryFails(batch) {
        return Batches(true, false, succeeded, failed, errors), tried, cursor;
      }
      ghost var attempted := db.attempted;
      var heights, ok, batchErrors := NextBatch(db, w, start, currentStart, end, batchSize, env.attempts, old(db.listed), tried, errors);
      if heights == [] {
        break;
      }
      succeeded, failed, errors := succeeded + ok, failed + |batchErrors|, errors + batchErrors;
      AttemptedBatches(old(db.attempted), attempted, db.attempted, tried, heights);
      tried := tried + heights;
      currentStart, batch := heights[|heights| - 1] + 1, batch + 1;
      cursor := currentStart;
    }
    return Batches(false, false, succeeded, failed, errors), tried, cursor;
  }

  /** Queries one batch and attempts it; an empty one shows that nothing is missing, unless the batch size is 0. */
  method NextBatch(db: ChainDb, w: nat, ghost start: nat, cursor: nat, end: nat, batchSize: nat, attempts: nat -> Attempt,
                   ghost before: set<nat>, ghost tried: seq<nat>, ghost errors: seq<nat>)
    returns (heights: seq<nat>, succeeded: nat, batchErrors: seq<nat>)
    requires db.Valid() && PlaceOf(db.workers, w) == Idle
    requires Exact(before, Seen(db), start, cursor, end, tried, errors) && before <= db.listed
    modifies db
    ensures db.Valid() && PlaceOf(db.workers, w) == Idle && db.Grew()
    ensures batchSize == 0 ==> heights == []
    ensures heights == [] ==> db.log == old(db.log) && db.attempted == old(db.attempted) && Seen(db) == old(Seen(db))
    ensures heights == [] && batchSize > 0 ==> Covered(Seen(db), cursor, end)
    ensures heights != [] ==> cursor <= heights[|heights| - 1] <= end &&
                              Exact(before, Seen(db), start, heights[|heights| - 1] + 1, end, tried + heights, errors + batchErrors)
    ensures succeeded + |batchErrors| == |heights| && Attempted(old(db.attempted), db.attempted, heights)
    ensures forall h :: h in batchErrors ==> Fails(attempts(h))
  {
    heights := FindMissingHeights(db.listed, cursor, end, batchSize);
    if heights == [] {
      if batchSize > 0 {
        EmptyBatchCovers(db.listed, cursor, end);
      }
      return heights, 0, [];
    }
    BatchIsMissing(db.listed, cursor, end, heights);
    ghost var listed, queried := db.listed, Seen(db);
    succeeded, batchErrors := ProcessBatch(db, w, heights, attempts);
    ExactAfterBatch(before, listed, queried, Seen(db), start, cursor, end, tried, errors, heights, batchErrors);
  }

  lemma BatchesAccount(before: set<nat>, blocks: set<nat>, start: nat, cursor: nat, end: nat, tried: seq<nat>, b: Batches, r: Result)
    requires Exact(before, blocks, start, cursor, end, tried, b.errors)
    requires |tried| == b.succeeded + b.failed && b.failed == |b.errors|
    requires r == Result(|MissingIn(before, start, end + 1)|, b.succeeded + b.failed, b.succeeded, b.failed, b.errors)
    ensures Accounted(before, blocks, start, end, tried, r)
  {
    ExactCount(before, blocks, start, cursor, end, tried, b.errors);
  }

  /** A run that leaves at once, because nothing is missing or nothing is to be done. */
  lemma AtOnceAccounts(before: set<nat>, blocks: set<nat>, start: nat, end: nat, r: Result)
    requires before <= blocks && r == Result(|MissingIn(before, start, end + 1)|, 0, 0, 0, [])
    ensures Accounted(before, blocks, start, end, [], r)
    ensures r.totalMissing == 0 ==> Complete(before, blocks, start, end, [], r)
  {
    MissingIsMissing(before, start, end + 1);
  }

  lemma BatchesComplete(before: set<nat>, blocks: set<nat>, start: nat, cursor: nat, end: nat, tried: seq<nat>, b: Batches, r: Result)
    requires Exact(before, blocks, start, cursor, end, tried, b.errors)
    requires end < cursor || Covered(blocks, cursor, end)
    requires |tried| == b.succeeded + b.failed
    requires r == Result(|MissingIn(before, start, end + 1)|, b.succeeded + b.failed, b.succeeded, b.failed, b.errors)
    ensures Complete(before, blocks, start, end, tried, r)
  {
    ExactWhenDone(before, blocks, start, cursor, end, tried, b.errors);
  }

  /** The run over a range that is known. */
  method RunRange(db: ChainDb, w: nat, start: nat, end: nat, batchSize: nat, dryRun: bool, env: Environment)
    returns (outcome: Outcome, ghost tried: seq<nat>)
    requires db.Valid() && PlaceOf(db.workers, w) == Idle
    modifies db
    ensures db.Valid() && PlaceOf(db.workers, w) == Idle && db.Grew()
    ensures Attempted(old(db.attempted), db.attempted, tried)
    ensures outcome.Aborted? ==> exists i :: env.queryFails(i)
    ensures outcome.Cancelled? ==> exists i :: env.cancelled(i)
    ensures !outcome.Aborted? ==> Accounted(old(db.listed), Seen(db), start, end, tried, outcome.result)
    ensures !outcome.Aborted? ==> forall h :: h in outcome.result.errors ==> Fails(env.attempts(h))
    ensures outcome.Finished? && !dryRun && batchSize > 0 ==> Complete(old(db.listed), Seen(db), start, end, tried, outcome.result)
    ensures dryRun || batchSize == 0 ==> tried == [] && db.log == old(db.log)
  {
    var totalMissing := GetGapStats(db.listed, start, end).totalMissing;
    if totalMissing == 0 || dryRun {
      var nothing := Result(totalMissing, 0, 0, 0, []);
      AtOnceAccounts(db.listed, Seen(db), start, end, nothing);
      return Finished(nothing), [];
    }
    ghost var cursor;
    var b: Batches;
    b, tried, cursor := ProcessBatches(db, w, start, end, batchSize, env);
    if b.aborted {
      return Aborted, tried;
    }
    var result := Result(totalMissing, b.succeeded + b.failed, b.succeeded, b.failed, b.errors);
    BatchesAccount(old(db.listed), Seen(db), start, cursor, end, tried, b, result);
    if b.cancelled {
      return Cancelled(result), tried;
    }
    if batchSize > 0 {
      BatchesComplete(old(db.listed), Seen(db), start, cursor, end, tried, b, result);
    }
    outcome := Finished(result);
  }

  /** What went wrong where an attempt failed. */
  predicate WentWrong(a: Attempt) {
    a.fetchFails || a.faults.unconfigured || a.faults.check || a.faults.failAt < 14 || a.faults.summary
  }

  /**
   Backfills the range, beside other workers: from height 1 unless another start is configured, to the head of the
   chain unless an end is. The run ends early when the head or a query fails (Aborted) or when it is cancelled, each
   batch having its own query and its own look at the context. How the attempt at a height goes is up to the
   environment.
   */
  method Run(db: ChainDb, w: nat, cfg: Config, head: Option<nat>, env: Environment) returns (outcome: Outcome, ghost tried: seq<nat>)
    requires db.Valid() && PlaceOf(db.workers, w) == Idle
    modifies db
    ensures db.Valid() && PlaceOf(db.workers, w) == Idle && db.Grew()
    ensures Attempted(old(db.attempted), db.attempted, tried)
    ensures cfg.endHeight == 0 && head == None ==> outcome.Aborted?
    ensures outcome.Aborted? ==> (cfg.endHeight == 0 && head == None) || exists i :: env.queryFails(i)
    ensures outcome.Cancelled? ==> exists i :: env.cancelled(i)
    ensures !outcome.Aborted? ==>
              var lo, hi := if cfg.startHeight == 0 then 1 else cfg.startHeight, if cfg.endHeight == 0 then head.value else cfg.endHeight;
              && Accounted(old(db.listed), Seen(db), lo, hi, tried, outcome.result)
              && outcome.result.totalMissing == |set h | lo <= h <= hi && h !in old(db.listed)|
              && (outcome.Finished? && !cfg.dryRun && cfg.batchSize > 0 ==>
                   && Complete(old(db.listed), Seen(db), lo, hi, tried, outcome.result)
                   && forall h :: lo <= h <= hi ==> h in Seen(db) || h in outcome.result.errors)
    ensures !outcome.Aborted? ==> forall h :: h in outcome.result.errors ==> WentWrong(env.attempts(h))
    ensures cfg.dryRun || cfg.batchSize == 0 ==> tried == [] && db.log == old(db.log)
  {
    var start, end := cfg.startHeight, cfg.endHeight;
    if start == 0 {
      start := 1;
    }
    if end == 0 {
      if head == None {
        return Aborted, [];
      }
      end := head.value;
    }
    MissingCount(db.listed, start, end);
    outcome, tried := RunRange(db, w, start, end, cfg.batchSize, cfg.dryRun, env);
  }
}
